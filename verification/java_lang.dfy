/**
 The pieces of the Java platform the engine facade leans on: nullable
 references, the throwables it raises or lets through, and `String.trim`.
 */
module JavaLang {

  /** A Java reference that may be `null`. */
  datatype Nullable<+T> = Null | NonNull(value: T)

  /** The throwables that reach or leave the engine's compile entry points.
      `TokenMgrError` and `OtherError` extend `java.lang.Error`; every other
      constructor is a `java.lang.Exception`. */
  datatype Throwable =
    | TokenMgrError(message: string)
    | ParseException(message: string)
    | RuntimeException(cause: Throwable)
    | IllegalStateException(message: string)
    | NullPointerException(message: string)
    | IOException(message: string)
    | OtherException(message: string)
    | OtherError(message: string)
  {
    /** True for the subclasses of `java.lang.Exception`, which a
        `catch (Exception e)` clause intercepts. */
    predicate IsException() {
      !TokenMgrError? && !OtherError?
    }
  }

  /** The result of a Java call: a returned value or a thrown throwable. */
  datatype Outcome<+T> = Returns(value: T) | Throws(thrown: Throwable)

  /** `String.trim` removes every leading and trailing character whose code
      is at most U+0020 (space and the control characters U+0000-U+001F).
      DEL, the C1 controls and other Unicode spaces are kept. */
  predicate IsTrimmable(c: char) {
    c <= ' '
  }

  predicate AllTrimmable(s: string) {
    forall k :: 0 <= k < |s| ==> IsTrimmable(s[k])
  }

  /** A string `trim` leaves alone: empty, or starting and ending with a
      character above U+0020. */
  predicate IsTrimmed(s: string) {
    s == [] || (!IsTrimmable(s[0]) && !IsTrimmable(s[|s| - 1]))
  }

  /** The first loop of `trim`: skip trimmable characters from the front. */
  function StripLeading(s: string): (r: string)
    ensures |r| <= |s| && r == s[|s| - |r|..]
    ensures AllTrimmable(s[..|s| - |r|])
    ensures r == [] || !IsTrimmable(r[0])
  {
    if |s| > 0 && IsTrimmable(s[0]) then
      var r := StripLeading(s[1..]);
      assert s[..|s| - |r|] == [s[0]] + s[1..][..|s| - 1 - |r|];
      r
    else
      s
  }

  /** The second loop of `trim`: drop trimmable characters from the back. */
  function StripTrailing(s: string): (r: string)
    ensures |r| <= |s| && r == s[..|r|]
    ensures AllTrimmable(s[|r|..])
    ensures r == [] || !IsTrimmable(r[|r| - 1])
  {
    if |s| > 0 && IsTrimmable(s[|s| - 1]) then
      var r := StripTrailing(s[..|s| - 1]);
      assert s[|r|..] == s[..|s| - 1][|r|..] + [s[|s| - 1]];
      r
    else
      s
  }

  /** Where `trim`'s result starts inside its argument. */
  function TrimStart(s: string): (i: nat)
    ensures i <= |s|
    ensures AllTrimmable(s[..i])
  {
    |s| - |StripLeading(s)|
  }

  /** Cutting a trimmed prefix `r` out of a suffix `lead == s[i..]` whose
      first character is not trimmable leaves `r` trimmed and in place. */
  lemma SliceOfSuffix(s: string, i: nat, lead: string, r: string)
    requires i <= |s| && lead == s[i..]
    requires |r| <= |lead| && r == lead[..|r|]
    requires AllTrimmable(lead[|r|..])
    requires lead == [] || !IsTrimmable(lead[0])
    requires r == [] || !IsTrimmable(r[|r| - 1])
    ensures IsTrimmed(r)
    ensures i + |r| <= |s| && r == s[i..i + |r|]
    ensures AllTrimmable(s[i + |r|..])
  {
    assert lead[|r|..] == s[i + |r|..];
  }

  /** `String.trim`: the part of `s` left once the trimmable characters at
      both ends are gone. */
  function Trim(s: string): (r: string)
    ensures IsTrimmed(r)
    ensures TrimStart(s) + |r| <= |s|
    ensures r == s[TrimStart(s)..TrimStart(s) + |r|]
    ensures AllTrimmable(s[TrimStart(s) + |r|..])
  {
    var lead := StripLeading(s);
    var r := StripTrailing(lead);
    SliceOfSuffix(s, TrimStart(s), lead, r);
    r
  }

  /** Stripping the front of `p + rest` stops exactly at `rest` when `p` is
      all trimmable and `rest` does not start with a trimmable character. */
  lemma {:induction false} StripLeadingStopsAt(p: string, rest: string)
    requires AllTrimmable(p)
    requires rest == [] || !IsTrimmable(rest[0])
    ensures StripLeading(p + rest) == rest
    decreases |p|
  {
    if p == [] {
      assert p + rest == rest;
    } else {
      assert (p + rest)[1..] == p[1..] + rest;
      StripLeadingStopsAt(p[1..], rest);
    }
  }

  /** The mirror image of `StripLeadingStopsAt` for the back of a string. */
  lemma {:induction false} StripTrailingStopsAt(rest: string, q: string)
    requires AllTrimmable(q)
    requires rest == [] || !IsTrimmable(rest[|rest| - 1])
    ensures StripTrailing(rest + q) == rest
    decreases |q|
  {
    if q == [] {
      assert rest + q == rest;
    } else {
      assert (rest + q)[..|rest + q| - 1] == rest + q[..|q| - 1];
      StripTrailingStopsAt(rest, q[..|q| - 1]);
    }
  }

  /** `trim` is characterised by its result alone: whenever `s` splits into
      trimmable padding around a trimmed core, `trim` returns that core. */
  lemma {:induction false} TrimUnique(p: string, r: string, q: string)
    requires AllTrimmable(p) && AllTrimmable(q)
    requires IsTrimmed(r)
    ensures Trim(p + r + q) == r
  {
    if r == [] {
      assert p + r + q == (p + q) + [];
      StripLeadingStopsAt(p + q, []);
    } else {
      assert p + r + q == p + (r + q);
      StripLeadingStopsAt(p, r + q);
      StripTrailingStopsAt(r, q);
    }
  }

  /** `trim` leaves a trimmed string alone. */
  lemma TrimOfTrimmed(r: string)
    requires IsTrimmed(r)
    ensures Trim(r) == r
  {
    assert [] + r + [] == r;
    TrimUnique([], r, []);
  }

  /** Trimming twice is trimming once. */
  lemma TrimIdempotent(s: string)
    ensures Trim(Trim(s)) == Trim(s)
  {
    TrimOfTrimmed(Trim(s));
  }

  /** Concatenating trimmable padding yields trimmable padding. */
  lemma AllTrimmableConcat(a: string, b: string)
    requires AllTrimmable(a) && AllTrimmable(b)
    ensures AllTrimmable(a + b)
  {
    assert forall k :: 0 <= k < |a + b| ==> (a + b)[k] == if k < |a| then a[k] else b[k - |a|];
  }

  /** A string is the slice `s[i..i + |r|]` surrounded by what lies before
      and after it. */
  lemma SliceSplits(s: string, i: nat, r: string)
    requires i + |r| <= |s| && r == s[i..i + |r|]
    ensures s == s[..i] + r + s[i + |r|..]
  {
    assert s == s[..i] + s[i..i + |r|] + s[i + |r|..];
  }

  /** Every string is its `trim` surrounded by trimmable padding. */
  lemma TrimSplits(s: string) returns (a: string, b: string)
    ensures AllTrimmable(a) && AllTrimmable(b)
    ensures s == a + Trim(s) + b
  {
    var i := TrimStart(s);
    var r := Trim(s);
    SliceSplits(s, i, r);
    a := s[..i];
    b := s[i + |r|..];
  }

  /** Regrouping a five-part concatenation. */
  lemma Regroup(p: string, a: string, r: string, b: string, q: string)
    ensures p + (a + r + b) + q == (p + a) + r + (b + q)
  {
  }

  /** Padding a string with further trimmable characters does not change
      what `trim` returns. */
  lemma TrimIgnoresPadding(p: string, s: string, q: string)
    requires AllTrimmable(p) && AllTrimmable(q)
    ensures Trim(p + s + q) == Trim(s)
  {
    var a, b := TrimSplits(s);
    var r := Trim(s);
    AllTrimmableConcat(p, a);
    AllTrimmableConcat(b, q);
    Regroup(p, a, r, b, q);
    TrimUnique(p + a, r, b + q);
  }
}
