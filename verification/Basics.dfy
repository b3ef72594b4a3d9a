/** Small building blocks shared by the whole model: an Option type for
    Python's `None`, and the handful of Python string operations the
    pipeline relies on (`str.isspace`, `str.strip`, `str(int)`,
    `"\n".join`, `os.path.join`). */
module Basics {

  datatype Option<+T> = None | Some(value: T) {
    /** `x if x is not None else default` */
    function GetOr(default: T): T {
      match this
      case Some(v) => v
      case None => default
    }
  }

  /** The characters for which Python's `str.isspace()` is true. */
  predicate IsSpace(c: char) {
    var n := c as int;
    (9 <= n <= 13) || (28 <= n <= 32) || n == 0x85 || n == 0xA0 || n == 0x1680
    || (0x2000 <= n <= 0x200A) || n == 0x2028 || n == 0x2029 || n == 0x202F
    || n == 0x205F || n == 0x3000
  }

  /** `s.rstrip()`: drops whitespace from the end of `s`. */
  function TrimEnd(s: string): (r: string)
    ensures r <= s
  {
    if s != [] && IsSpace(s[|s| - 1]) then TrimEnd(s[..|s| - 1]) else s
  }

  /** `s.lstrip()`: drops whitespace from the start of `s`. */
  function TrimStart(s: string): (r: string)
    ensures |r| <= |s| && r == s[|s| - |r|..]
  {
    if s != [] && IsSpace(s[0]) then TrimStart(s[1..]) else s
  }

  /** `s.strip()` */
  function Strip(s: string): string {
    TrimStart(TrimEnd(s))
  }

  /** `rstrip` keeps the longest prefix that does not end in whitespace. */
  lemma {:induction false} TrimEndShape(s: string)
    ensures TrimEnd(s) == [] || !IsSpace(TrimEnd(s)[|TrimEnd(s)| - 1])
    ensures forall i | |TrimEnd(s)| <= i < |s| :: IsSpace(s[i])
    decreases |s|
  {
    if s != [] && IsSpace(s[|s| - 1]) {
      TrimEndShape(s[..|s| - 1]);
    }
  }

  /** `lstrip` keeps the longest suffix that does not start with whitespace. */
  lemma {:induction false} TrimStartShape(s: string)
    ensures TrimStart(s) == [] || !IsSpace(TrimStart(s)[0])
    ensures forall i | 0 <= i < |s| - |TrimStart(s)| :: IsSpace(s[i])
    decreases |s|
  {
    if s != [] && IsSpace(s[0]) {
      TrimStartShape(s[1..]);
      assert forall i | 1 <= i < |s| - |TrimStart(s)| :: s[i] == s[1..][i - 1];
    }
  }

  /** A string made only of whitespace strips to the empty string. */
  lemma StripBlank(s: string)
    requires forall i | 0 <= i < |s| :: IsSpace(s[i])
    ensures Strip(s) == ""
  {
    TrimEndShape(s);
    TrimStartShape(TrimEnd(s));
  }

  /** A string that neither starts nor ends with whitespace is left alone by `strip`. */
  lemma StripTrimmed(s: string)
    requires s != [] ==> !IsSpace(s[0]) && !IsSpace(s[|s| - 1])
    ensures Strip(s) == s
  {
  }

  /** A trailing space is dropped by `strip` and nothing else is. */
  lemma StripTrailingSpace(text: string)
    requires text != [] && !IsSpace(text[0]) && !IsSpace(text[|text| - 1])
    ensures Strip(text + " ") == text
  {
    var s := text + " ";
    assert s[..|s| - 1] == text;
    assert IsSpace(s[|s| - 1]);
    assert TrimEnd(s) == TrimEnd(text) == text;
  }

  function DigitChar(d: nat): (c: char)
    requires d < 10
    ensures '0' <= c <= '9'
  {
    (48 + d) as char
  }

  /** Decimal digits of a natural number, without leading zeros. */
  function NatToDecimal(n: nat): (r: string)
    ensures r != []
    ensures forall i | 0 <= i < |r| :: '0' <= r[i] <= '9'
    ensures |r| > 1 ==> r[0] != '0'
  {
    if n < 10 then [DigitChar(n)] else NatToDecimal(n / 10) + [DigitChar(n % 10)]
  }

  /** Python's `str(n)` for an `int`. */
  function IntToString(n: int): (r: string)
    ensures r != []
    ensures forall i | 0 <= i < |r| :: r[i] == '-' || '0' <= r[i] <= '9'
  {
    if n < 0 then "-" + NatToDecimal(-n) else NatToDecimal(n)
  }

  /** Python's `"\n".join(lines)`. */
  function JoinLines(lines: seq<string>): string {
    if lines == [] then ""
    else if |lines| == 1 then lines[0]
    else JoinLines(lines[..|lines| - 1]) + "\n" + lines[|lines| - 1]
  }

  /** The directory part that `os.path.join(dir, name)` puts in front of a relative `name`. */
  function DirPrefix(dir: string): string {
    if dir == [] || dir[|dir| - 1] == '/' then dir else dir + "/"
  }

  /** POSIX `os.path.join(dir, name)` for two components: an absolute `name`
      replaces the directory, otherwise a separator is added when needed. */
  function PathJoin(dir: string, name: string): (p: string)
    ensures name != [] ==> p != [] && p[|p| - 1] == name[|name| - 1]
  {
    if name != [] && name[0] == '/' then name else DirPrefix(dir) + name
  }

  /** Joining under a fixed directory is injective on relative names. */
  lemma PathJoinInjective(dir: string, a: string, b: string)
    requires a == [] || a[0] != '/'
    requires b == [] || b[0] != '/'
    requires PathJoin(dir, a) == PathJoin(dir, b)
    ensures a == b
  {
    var pre := DirPrefix(dir);
    assert pre + a == pre + b;
    assert a == (pre + a)[|pre|..];
  }

  /** Concatenation regrouped, for the `...Append` inductions that add one
      element at a time. */
  lemma SeqAssoc<T>(x: seq<T>, y: seq<T>, z: seq<T>)
    ensures (x + y) + z == x + (y + z)
  {
  }
}
