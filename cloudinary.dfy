/**
 * The asset store client the service calls for avatars. The network round trip
 * is not modelled: each call's outcome is an input, so both success and failure
 * are covered, and the calls a service operation makes are reported in order.
 */
module Cloudinary {
  import opened Wrappers

  type Bytes = seq<bv8>

  /** How `uploadImage(file)` settles: with the stored asset's id and URL, or
      rejected for some cause (a bad content type, the network, the service). */
  datatype UploadOutcome = Uploaded(publicId: string, url: string) | UploadRejected(cause: string)

  /** How `destroyImage(public_id)` settles. */
  datatype DestroyOutcome = Destroyed | DestroyRejected(cause: string)

  /** One call into the asset store. A destroy carries the id it was given,
      which is None when the user had no avatar (`user.avatar?.public_id`). */
  datatype AssetCall = UploadCall(file: Bytes) | DestroyCall(publicId: Option<string>)
}
