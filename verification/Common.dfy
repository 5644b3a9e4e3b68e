/** Small vocabulary shared by the models: optional values, `min` and `max`, Python's text trimming. */
module Common {
  datatype Option<+T> = None | Some(value: T)

  /** The characters that Python's `str.strip()` removes. */
  predicate IsSpace(c: char) {
    var code := c as int;
    || 0x09 <= code <= 0x0D
    || 0x1C <= code <= 0x20
    || code == 0x85 || code == 0xA0 || code == 0x1680
    || 0x2000 <= code <= 0x200A
    || code == 0x2028 || code == 0x2029 || code == 0x202F || code == 0x205F || code == 0x3000
  }

  /** Nothing visible in ASCII is white space, and the usual separators are. */
  lemma SpacesInAscii(c: char)
    ensures '!' <= c <= '~' ==> !IsSpace(c)
    ensures c in " \t\n\r" ==> IsSpace(c)
  {
  }

  predicate AllSpace(s: string) {
    forall i | 0 <= i < |s| :: IsSpace(s[i])
  }

  /** No white space at either end. */
  predicate Trimmed(s: string) {
    |s| > 0 ==> !IsSpace(s[0]) && !IsSpace(s[|s| - 1])
  }

  function StripLeft(s: string): string {
    if s != "" && IsSpace(s[0]) then StripLeft(s[1..]) else s
  }

  function StripRight(s: string): string {
    if s != "" && IsSpace(s[|s| - 1]) then StripRight(s[..|s| - 1]) else s
  }

  /** `s.strip()` */
  function Strip(s: string): string {
    StripRight(StripLeft(s))
  }

  lemma {:induction false} StripLeftDrops(s: string) returns (i: nat)
    ensures i <= |s| && StripLeft(s) == s[i..] && AllSpace(s[..i])
    ensures i < |s| ==> !IsSpace(s[i])
    decreases |s|
  {
    i := 0;
    if s != "" && IsSpace(s[0]) {
      var j := StripLeftDrops(s[1..]);
      i := j + 1;
      assert s[1..][j..] == s[i..];
      assert s[..i] == [s[0]] + s[1..][..j];
    }
  }

  lemma {:induction false} StripRightDrops(s: string) returns (j: nat)
    ensures j <= |s| && StripRight(s) == s[..j] && AllSpace(s[j..])
    ensures 0 < j ==> !IsSpace(s[j - 1])
    decreases |s|
  {
    j := |s|;
    if s != "" && IsSpace(s[|s| - 1]) {
      j := StripRightDrops(s[..|s| - 1]);
      assert s[..|s| - 1][..j] == s[..j];
      assert s[j..] == s[..|s| - 1][j..] + [s[|s| - 1]];
    }
  }

  /** `t` is what is left of `s` when white space is cut off at both ends, and no more. */
  predicate IsTrimmedPart(s: string, t: string) {
    Trimmed(t) && exists i, j | 0 <= i <= j <= |s| :: t == s[i..j] && AllSpace(s[..i]) && AllSpace(s[j..])
  }

  lemma {:induction false} OneTrimmedPart(s: string, i: nat, j: nat, k: nat, l: nat)
    requires i <= j <= |s| && k <= l <= |s|
    requires Trimmed(s[i..j]) && AllSpace(s[..i]) && AllSpace(s[j..])
    requires Trimmed(s[k..l]) && AllSpace(s[..k]) && AllSpace(s[l..])
    ensures s[i..j] == s[k..l]
  {
    if i < j {
      assert !IsSpace(s[i]) && !IsSpace(s[j - 1]);
      assert k <= i && j <= l;
      assert !IsSpace(s[k]) && !IsSpace(s[l - 1]);
    }
  }

  /** Trimming cuts off the white space at both ends and nothing else. */
  lemma {:induction false} StripIsTheTrimmedPart(s: string, t: string)
    ensures IsTrimmedPart(s, t) <==> t == Strip(s)
  {
    var i := StripLeftDrops(s);
    var n := StripRightDrops(s[i..]);
    var j := i + n;
    assert s[i..][..n] == s[i..j];
    assert s[j..] == s[i..][n..];
    if IsTrimmedPart(s, t) {
      var k, l :| 0 <= k <= l <= |s| && t == s[k..l] && AllSpace(s[..k]) && AllSpace(s[l..]);
      OneTrimmedPart(s, i, j, k, l);
    }
  }

  lemma {:induction false} StripIsBlankIff(s: string)
    ensures Strip(s) == "" <==> AllSpace(s)
  {
    assert s[..0] == "" && s[|s|..] == "" && s[0..0] == "";
    if AllSpace(s) {
      assert s[0..] == s;
      StripIsTheTrimmedPart(s, "");
    } else {
      var i := StripLeftDrops(s);
      var j := StripRightDrops(s[i..]);
      assert s == s[..i] + s[i..];
    }
  }

  lemma StripKeepsTrimmed(s: string)
    requires Trimmed(s)
    ensures Strip(s) == s
  {
  }

  function Max(x: real, y: real): real {
    if x >= y then x else y
  }

  function Min(x: real, y: real): real {
    if x <= y then x else y
  }

  /** `s.lower()` on the Latin letters. */
  function Lower(s: string): (r: string)
    ensures |r| == |s|
    ensures forall i | 0 <= i < |s| :: r[i] == LowerChar(s[i])
  {
    if s == "" then "" else [LowerChar(s[0])] + Lower(s[1..])
  }

  function LowerChar(c: char): char {
    if 'A' <= c <= 'Z' then ((c as int) + 32) as char else c
  }
}
