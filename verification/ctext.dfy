/**
  The two C string facilities the driver relies on for its version field:
  `snprintf` with a format that has no conversions, and reading a
  NUL-terminated string back out of a fixed char array.
 */
module CText {
  import opened Types

  const NUL: char := 0 as char

  /** The C string held by `s`: every char before the first NUL (all of `s` if it has none). */
  function CString(s: seq<char>): (r: seq<char>)
    ensures |r| <= |s| && r == s[..|r|]
    ensures NUL !in r
    ensures |r| < |s| ==> s[|r|] == NUL
  {
    if |s| == 0 || s[0] == NUL then [] else [s[0]] + CString(s[1..])
  }

  /**
    `snprintf(dst, size, s)` for a format `s` without conversions: at most
    `size - 1` chars of `s` are stored, followed by a NUL; the rest of `dst`
    is left as it was.
   */
  function Snprintf(dst: seq<char>, size: nat, s: string): (r: seq<char>)
    requires 0 < size <= |dst|
    requires '%' !in s
    ensures |r| == |dst|
    ensures forall i | 0 <= i < |s| && i < size - 1 :: r[i] == s[i]
    ensures r[Min(|s|, size - 1)] == NUL
    ensures forall i | Min(|s|, size - 1) < i < |dst| :: r[i] == dst[i]
  {
    var k := Min(|s|, size - 1);
    s[..k] + [NUL] + dst[k + 1..]
  }

  /** A C string is recovered from a NUL-free text followed by a NUL. */
  lemma {:induction false} CStringOfTerminated(t: seq<char>, rest: seq<char>)
    requires NUL !in t
    ensures CString(t + [NUL] + rest) == t
    decreases |t|
  {
    var x := t + [NUL] + rest;
    if |t| > 0 {
      assert t[0] in t;
      assert x[1..] == t[1..] + [NUL] + rest;
      assert NUL !in t[1..] by {
        forall i | 0 <= i < |t| - 1 ensures t[1..][i] != NUL {
          assert t[1..][i] == t[i + 1] && t[i + 1] in t;
        }
      }
      CStringOfTerminated(t[1..], rest);
      assert [t[0]] + t[1..] == t;
    }
  }

  /**
    What `snprintf` leaves readable: the whole text when it is shorter than
    `size`, otherwise its first `size - 1` chars. So the text survives intact
    exactly when it is shorter than `size`.
   */
  lemma SnprintfStored(dst: seq<char>, size: nat, s: string)
    requires 0 < size <= |dst|
    requires NUL !in s && '%' !in s
    ensures CString(Snprintf(dst, size, s)) == (if |s| < size then s else s[..size - 1])
    ensures CString(Snprintf(dst, size, s)) == s <==> |s| < size
  {
    var k := Min(|s|, size - 1);
    assert NUL !in s[..k] by {
      forall i | 0 <= i < k ensures s[..k][i] != NUL {
        assert s[..k][i] == s[i] && s[i] in s;
      }
    }
    CStringOfTerminated(s[..k], dst[k + 1..]);
    if |s| < size {
      assert s[..k] == s;
    } else {
      assert |s[..k]| < |s|;
    }
  }
}
