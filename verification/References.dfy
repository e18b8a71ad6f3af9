/** The `reference_id` column of `wallet_transactions`: a nullable UUID. */
module References {
  import opened Prelude
  import opened Text

  predicate IsHexDigit(c: char) {
    '0' <= c <= '9' || 'a' <= c <= 'f' || 'A' <= c <= 'F'
  }

  /** The regular expression of `toValidUuidOrNull`: 8-4-4-4-12 hex digits, any case. */
  predicate IsUuid(s: string) {
    |s| == 36 &&
    forall i :: 0 <= i < 36 ==>
      if i == 8 || i == 13 || i == 18 || i == 23 then s[i] == '-' else IsHexDigit(s[i])
  }

  predicate AllHex(s: string) {
    forall i :: 0 <= i < |s| ==> IsHexDigit(s[i])
  }

  predicate IsGroup(s: string, length: nat) {
    |s| == length && AllHex(s)
  }

  predicate IsGroups(s: string, a: string, b: string, c: string, d: string, e: string) {
    s == a + "-" + b + "-" + c + "-" + d + "-" + e &&
    IsGroup(a, 8) && IsGroup(b, 4) && IsGroup(c, 4) && IsGroup(d, 4) && IsGroup(e, 12)
  }

  /** Exactly the strings of five groups of hex digits with hyphens between. */
  lemma UuidGroups(s: string)
    ensures IsUuid(s) <==> exists a, b, c, d, e :: IsGroups(s, a, b, c, d, e)
  {
    if IsUuid(s) {
      var a, b, c, d, e := s[..8], s[9..13], s[14..18], s[19..23], s[24..];
      assert s == a + s[8..9] + b + s[13..14] + c + s[18..19] + d + s[23..24] + e;
      assert s[8..9] == "-" && s[13..14] == "-" && s[18..19] == "-" && s[23..24] == "-";
      assert IsGroups(s, a, b, c, d, e);
    } else if exists a, b, c, d, e :: IsGroups(s, a, b, c, d, e) {
      var a, b, c, d, e :| IsGroups(s, a, b, c, d, e);
      GroupsAreUuid(s, a, b, c, d, e);
    }
  }

  lemma GroupsAreUuid(s: string, a: string, b: string, c: string, d: string, e: string)
    requires IsGroups(s, a, b, c, d, e)
    ensures IsUuid(s)
  {
    forall i | 0 <= i < 36
      ensures if i == 8 || i == 13 || i == 18 || i == 23 then s[i] == '-' else IsHexDigit(s[i])
    {
      assert i < 8 ==> s[i] == a[i];
      assert 9 <= i < 13 ==> s[i] == b[i - 9];
      assert 14 <= i < 18 ==> s[i] == c[i - 14];
      assert 19 <= i < 23 ==> s[i] == d[i - 19];
      assert 24 <= i ==> s[i] == e[i - 24];
    }
  }

  /** What a reference becomes once stored: `toValidUuidOrNull`, then the UUID column,
      which compares its values without regard to case. */
  function StoredReference(s: string): Option<string> {
    if IsUuid(s) then Some(Lower(s)) else None
  }

  /** Two references are one refund key exactly when neither is a UUID, or both are the
      same UUID up to case. */
  lemma SameStoredReference(a: string, b: string)
    ensures StoredReference(a) == StoredReference(b) <==>
      IsUuid(a) == IsUuid(b) &&
      (IsUuid(a) ==> forall i :: 0 <= i < 36 ==> LowerChar(a[i]) == LowerChar(b[i]))
  {
    if IsUuid(a) && IsUuid(b) && (forall i :: 0 <= i < 36 ==> LowerChar(a[i]) == LowerChar(b[i])) {
      assert Lower(a) == Lower(b);
    }
  }

  /** A generated request id (`req_` and 24 hex digits) is never a UUID. */
  lemma RequestIdsStoreNull(id: string)
    requires "req_" <= id
    ensures StoredReference(id) == None
  {
    assert id[0] == 'r';
  }
}
