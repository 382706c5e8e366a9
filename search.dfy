/**
 * The user search: a record matches when its "firstname lastname" or its email
 * contains the query, ignoring case; the requester is left out and the secret
 * fields are projected away. The query is treated as literal text, and case is
 * folded for ASCII letters only.
 */
module Search {
  import opened Users

  function LowerChar(c: char): char
  {
    if 'A' <= c <= 'Z' then (c as int + 32) as char else c
  }

  function UpperChar(c: char): char
  {
    if 'a' <= c <= 'z' then (c as int - 32) as char else c
  }

  function Lower(s: string): (r: string)
    ensures |r| == |s|
    ensures forall i :: 0 <= i < |s| ==> r[i] == LowerChar(s[i])
  {
    if s == [] then [] else [LowerChar(s[0])] + Lower(s[1..])
  }

  function Upper(s: string): (r: string)
    ensures |r| == |s|
    ensures forall i :: 0 <= i < |s| ==> r[i] == UpperChar(s[i])
  {
    if s == [] then [] else [UpperChar(s[0])] + Upper(s[1..])
  }

  /** Upper-casing a text does not change what it folds to. */
  lemma {:induction false} LowerUpper(s: string)
    ensures Lower(Upper(s)) == Lower(s)
  {
    if s != [] {
      LowerUpper(s[1..]);
      assert Upper(s)[1..] == Upper(s[1..]);
    }
  }

  /** `text` contains `pat` as a contiguous piece. */
  predicate Contains(text: string, pat: string)
  {
    pat <= text || (|text| > 0 && Contains(text[1..], pat))
  }

  /** `pat` occurs in `text` starting at offset `k`. */
  predicate OccursAt(text: string, pat: string, k: nat)
  {
    k + |pat| <= |text| && text[k..k + |pat|] == pat
  }

  /** Containment means an occurrence at some offset, in both directions. */
  lemma {:induction false} ContainsIffOccurs(text: string, pat: string)
    ensures Contains(text, pat) <==> exists k: nat :: OccursAt(text, pat, k)
  {
    if pat <= text {
      assert OccursAt(text, pat, 0);
    } else if |text| == 0 {
      forall k: nat ensures !OccursAt(text, pat, k) {
      }
    } else {
      ContainsIffOccurs(text[1..], pat);
      if Contains(text[1..], pat) {
        var k: nat :| OccursAt(text[1..], pat, k);
        assert text[k + 1..k + 1 + |pat|] == text[1..][k..k + |pat|];
        assert OccursAt(text, pat, k + 1);
      } else {
        forall k: nat ensures !OccursAt(text, pat, k) {
          if k == 0 {
            assert !(pat <= text);
          } else if k + |pat| <= |text| {
            forall i | k <= i < k + |pat| ensures text[i] == text[1..][i - 1] {
            }
            assert text[k..k + |pat|] == text[1..][k - 1..k - 1 + |pat|];
            assert !OccursAt(text[1..], pat, k - 1);
          }
        }
      }
    }
  }

  /** The two alternatives of the search condition, on the fields they read. */
  predicate NameOrEmailMatches(firstname: string, lastname: string, email: string, query: string)
  {
    Contains(Lower(firstname + " " + lastname), Lower(query))
    || Contains(Lower(email), Lower(query))
  }

  predicate Matches(u: User, query: string)
  {
    NameOrEmailMatches(u.firstname, u.lastname, u.email, query)
  }

  /** `findUserWithSearch(user, searchValue)`: every stored record other than the
      requester's that matches, projected, in storage order. */
  function FindUserWithSearch(users: seq<User>, requesterId: UserId, query: string): (r: seq<View>)
    ensures |r| <= |users|
    ensures forall v :: v in r ==>
      && v.id != requesterId
      && NameOrEmailMatches(v.firstname, v.lastname, v.email, query)
      && v.password.Excluded? && v.refreshToken.Excluded?
      && (exists i :: 0 <= i < |users| && v == Project(users[i], SECRET_FIELDS))
    ensures forall i :: 0 <= i < |users| && users[i].id != requesterId && Matches(users[i], query) ==>
      Project(users[i], SECRET_FIELDS) in r
  {
    if users == [] then []
    else
      var rest := FindUserWithSearch(users[1..], requesterId, query);
      if users[0].id != requesterId && Matches(users[0], query)
      then [Project(users[0], SECRET_FIELDS)] + rest
      else rest
  }

  /** Changing the case of the query changes nothing in the result. */
  lemma SearchIgnoresQueryCase(users: seq<User>, requesterId: UserId, query: string)
    ensures FindUserWithSearch(users, requesterId, Upper(query)) == FindUserWithSearch(users, requesterId, query)
  {
    LowerUpper(query);
    assert forall u :: Matches(u, Upper(query)) == Matches(u, query);
  }
}
