/** Values shared by every stage of the ingestion pipeline: optional values,
    the outcome of a stage, clock readings, the whitespace class used by the
    text normaliser, upper-casing and the decimal rendering of integers. */
module Common {

  datatype Option<+T> = None | Some(value: T)

  /** The exceptions a stage can raise; each is logged and re-raised unchanged. */
  datatype Error =
    | LoadError(path: string)         // the PDF loader could not read the file
    | EmbeddingError(text: string)    // the embedding call failed on this text
    | AttributeError(name: string)    // an attribute lookup on a collaborator failed

  /** How a stage ends: it returns normally, or raises. */
  datatype Outcome = Pass | Fail(error: Error)

  /** One reading of the wall clock, already formatted as "%Y-%m-%d" and "%H:%M:%S". */
  datatype Stamp = Stamp(date: string, time: string)

  /** The clock, read once per record: the i-th record of a batch sees reading i. */
  type Clock = nat -> Stamp

  /** The text "%Y-%m-%d %H:%M:%S" of a clock reading. */
  function StampText(t: Stamp): string
  {
    t.date + " " + t.time
  }

  /** Whitespace: the characters matched by `\s` and removed by `strip()`. */
  predicate IsSpace(c: char)
  {
    c == ' ' || c == '\t' || c == '\n' || c == '\r' || c == 11 as char || c == 12 as char
  }

  /** The characters of the first substitution, `[\n\t\r]`. */
  predicate IsBreakOrTab(c: char)
  {
    c == '\n' || c == '\t' || c == '\r'
  }

  predicate IsLower(c: char)
  {
    'a' <= c <= 'z'
  }

  function UpperChar(c: char): (u: char)
    ensures !IsLower(u)
    ensures !IsLower(c) ==> u == c
  {
    if IsLower(c) then (c as int - 32) as char else c
  }

  /** `str.upper()`, on the letters a-z. */
  function Upper(s: string): (r: string)
    ensures |r| == |s|
    ensures forall i :: 0 <= i < |r| ==> !IsLower(r[i])
    ensures forall i :: 0 <= i < |s| && !IsLower(s[i]) ==> r[i] == s[i]
  {
    seq(|s|, i requires 0 <= i < |s| => UpperChar(s[i]))
  }

  lemma UpperIdempotent(s: string)
    ensures Upper(Upper(s)) == Upper(s)
  {
  }

  lemma UpperKeepsUpperCase(s: string)
    requires forall i :: 0 <= i < |s| ==> !IsLower(s[i])
    ensures Upper(s) == s
  {
  }

  /** `s.startswith(prefix)`. */
  predicate StartsWith(s: string, prefix: string)
  {
    |prefix| <= |s| && s[..|prefix|] == prefix
  }

  predicate IsDigit(c: char)
  {
    '0' <= c <= '9'
  }

  function DigitChar(d: nat): (c: char)
    requires d < 10
    ensures IsDigit(c)
  {
    ('0' as int + d) as char
  }

  /** `str(n)` for a natural number: its decimal digits, no leading zero. */
  function NatToString(n: nat): (s: string)
    ensures |s| >= 1
    ensures n >= 10 ==> |s| >= 2
    ensures forall i :: 0 <= i < |s| ==> IsDigit(s[i])
  {
    if n < 10 then [DigitChar(n)] else NatToString(n / 10) + [DigitChar(n % 10)]
  }

  /** `str(n)` for an integer: a minus sign before the digits of a negative one. */
  function IntToString(n: int): string
  {
    if n < 0 then "-" + NatToString(-n) else NatToString(n)
  }

  /** Different numbers are written differently. */
  lemma {:induction false} NatToStringInjective(a: nat, b: nat)
    requires NatToString(a) == NatToString(b)
    ensures a == b
  {
    var s := NatToString(a);
    if a >= 10 && b >= 10 {
      assert s[|s| - 1] == DigitChar(a % 10) == DigitChar(b % 10);
      assert NatToString(a / 10) == s[..|s| - 1] == NatToString(b / 10);
      NatToStringInjective(a / 10, b / 10);
    }
  }
}
