/**
 * Fixed-size C character buffers: what `sprintf` and `readlink` leave in them
 * and what `std::string(buf)` then reads back out of them.
 */
module CBuffers {
  import opened Outcomes
  import opened Decimal

  const NUL: char := '\0'

  /** PATH_MAX from <limits.h> on Solaris and illumos. */
  const PATH_MAX: nat := 1024

  /** Size of the `char buffer[128]` that GetStartTime formats the token into. */
  const START_TIME_BUFFER_SIZE: nat := 128

  function Min(a: nat, b: nat): nat {
    if a <= b then a else b
  }

  /** The string a C string constructor reads from `s`: every character before the first NUL. */
  function CStr(s: seq<char>): (r: seq<char>)
    ensures NUL !in r
    ensures |r| <= |s| && r == s[..|r|]
    ensures |r| < |s| ==> s[|r|] == NUL
  {
    if s == [] || s[0] == NUL then [] else [s[0]] + CStr(s[1..])
  }

  /** A buffer whose first |t| + 1 characters are `t` and a terminator reads back as `t`. */
  lemma {:induction false} CStrOfTerminated(s: seq<char>, t: seq<char>)
    requires NUL !in t && |t| < |s| && s[..|t| + 1] == t + [NUL]
    ensures CStr(s) == t
  {
    if t != [] {
      assert s[0] == t[0];
      assert s[1..][..|t[1..]| + 1] == t[1..] + [NUL];
      CStrOfTerminated(s[1..], t[1..]);
    }
  }

  /** `CStr` leaves a string without NUL characters as it is. */
  lemma CStrOfNulFree(t: seq<char>)
    requires NUL !in t
    ensures CStr(t) == t
  {
  }

  /** A terminator at index `n` hides everything after it. */
  lemma CStrStopsAtNul(s: seq<char>, n: nat)
    requires n < |s| && s[n] == NUL
    ensures CStr(s) == CStr(s[..n])
  {
  }

  /** `std::string(buf)`: scan for the terminator and copy what precedes it. */
  method ReadCString(buf: array<char>) returns (s: string)
    requires NUL in buf[..]
    ensures s == CStr(buf[..])
  {
    ghost var k :| 0 <= k < buf.Length && buf[k] == NUL;
    var i := 0;
    while buf[i] != NUL
      invariant 0 <= i <= k
      invariant forall j :: 0 <= j < i ==> buf[j] != NUL
      decreases k - i
    {
      i := i + 1;
    }
    s := buf[..i];
    CStrOfTerminated(buf[..], s);
  }

  /** `sprintf(buf, "%s", s)`: the characters of `s` followed by a terminator; the rest is untouched. */
  method WriteCString(buf: array<char>, s: string)
    requires NUL !in s && |s| < buf.Length
    modifies buf
    ensures buf[..|s| + 1] == s + [NUL]
    ensures buf[|s| + 1..] == old(buf[|s| + 1..])
  {
    var i := 0;
    while i < |s|
      invariant 0 <= i <= |s|
      invariant forall j :: 0 <= j < i ==> buf[j] == s[j]
      invariant forall j :: i <= j < buf.Length ==> buf[j] == old(buf[j])
    {
      buf[i] := s[i];
      i := i + 1;
    }
    buf[|s|] := NUL;
  }

  /**
   * `readlink(path, buf, bufsiz)` for a link whose target is `target` (None when the
   * call fails): -1 on failure, else copies min(|target|, bufsiz) characters and
   * returns that count. It writes no terminator.
   */
  method Readlink(target: Option<string>, buf: array<char>, bufsiz: nat) returns (n: int)
    requires bufsiz <= buf.Length
    modifies buf
    ensures target.None? ==> n == -1 && buf[..] == old(buf[..])
    ensures target.Some? ==> n == Min(|target.value|, bufsiz)
    ensures target.Some? ==> buf[..n] == target.value[..n] && buf[n..] == old(buf[n..])
  {
    if target.None? {
      return -1;
    }
    var t := target.value;
    var m := Min(|t|, bufsiz);
    var i := 0;
    while i < m
      invariant 0 <= i <= m
      invariant forall j :: 0 <= j < i ==> buf[j] == t[j]
      invariant forall j :: i <= j < buf.Length ==> buf[j] == old(buf[j])
    {
      buf[i] := t[i];
      i := i + 1;
    }
    n := m;
  }

  /**
   * `sprintf(buffer, "%lu", v)` into a `char buffer[128]` followed by
   * `string(buffer)`: the unsigned decimal rendering of `v`, which always fits.
   */
  method FormatULong(v: Long) returns (s: string)
    ensures s == Digits(AsULong(v))
    ensures |s| <= 20
  {
    var buffer := new char[START_TIME_BUFFER_SIZE];
    var digits := Digits(AsULong(v));
    ULongDigitsFit(AsULong(v));
    assert NUL !in digits by {
      assert forall i :: 0 <= i < |digits| ==> IsDigit(digits[i]);
    }
    WriteCString(buffer, digits);
    assert buffer[|digits|] == NUL;
    s := ReadCString(buffer);
    CStrOfTerminated(buffer[..], digits);
  }
}
