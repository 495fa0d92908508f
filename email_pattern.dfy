/** The address pattern `^[^\s@]+@[^\s@]+\.[^\s@]+$` that both API handlers apply to
    the recipient, written as the structure it describes rather than as a regular
    expression engine. */
module EmailPattern {
  import opened Common

  const AT: Byte := 64
  const DOT: Byte := 46

  /** A byte of the class `[^\s@]`. */
  predicate IsAtom(b: Byte)
  {
    !IsSpace(b) && b != AT
  }

  predicate AllAtoms(t: Text)
  {
    forall k | 0 <= k < |t| :: IsAtom(t[k])
  }

  /** `[^\s@]+\.[^\s@]+`: atoms only (a `.` is an atom too), with a `.` that is
      neither the first nor the last byte. */
  predicate IsDomain(d: Text)
  {
    AllAtoms(d) && exists j | 0 < j < |d| - 1 :: d[j] == DOT
  }

  /** The whole pattern: a non-empty local part of atoms, one `@`, then a domain. */
  predicate IsAddress(t: Text)
  {
    exists k | 0 < k < |t| :: t[k] == AT && AllAtoms(t[..k]) && IsDomain(t[k + 1..])
  }

  /** An address has exactly one `@`, so its local part and domain are determined. */
  lemma AddressSplitIsUnique(t: Text, k: nat, k': nat)
    requires 0 < k < |t| && t[k] == AT && AllAtoms(t[..k]) && IsDomain(t[k + 1..])
    requires 0 < k' < |t| && t[k'] == AT
    ensures k' == k
  {
  }

  /** `\s` matches carriage return and line feed, so no address contains either. */
  lemma LineBreakIsNotAddress(t: Text)
    requires HasLineBreak(t)
    ensures !IsAddress(t)
  {
  }

  /** A well-formed address is accepted. */
  lemma SimpleAddressAccepted()
    ensures IsAddress(Ascii("a@b.com"))
  {
    var t := Ascii("a@b.com");
    assert t == [97, 64, 98, 46, 99, 111, 109];
    assert t[2..][1] == DOT;
    assert t[1] == AT && AllAtoms(t[..1]) && IsDomain(t[2..]);
  }

  /** A string without `@` is rejected. */
  lemma NotAnAddressRejected()
    ensures !IsAddress(Ascii("not-an-email"))
  {
    var t := Ascii("not-an-email");
    assert t == [110, 111, 116, 45, 97, 110, 45, 101, 109, 97, 105, 108];
    assert AT !in t;
  }

  /** The header-injection attempt of a second line is rejected by the pattern itself. */
  lemma InjectedHeaderRejected()
    ensures !IsAddress(Ascii("a@b.com\nBcc: x@y.com"))
  {
    var t := Ascii("a@b.com\nBcc: x@y.com");
    assert t[7] == LF;
    LineBreakIsNotAddress(t);
  }
}
