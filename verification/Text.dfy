/**
  Strings as the Go standard library treats them in the modelled code: splitting
  into lines and joining them again, trimming white space, and printing and
  parsing decimal numbers.
 */
module Text {

  datatype Option<+T> = None | Some(value: T)

  // ---------------------------------------------------------------- lines

  predicate NoNewline(s: string) {
    '\n' !in s
  }

  /** strings.Split(s, "\n"). */
  function Split(s: string): (ls: seq<string>)
    ensures |ls| > 0
    ensures forall i | 0 <= i < |ls| :: NoNewline(ls[i])
    ensures NoNewline(s) ==> ls == [s]
  {
    if s == "" then [""]
    else if s[0] == '\n' then [""] + Split(s[1..])
    else
      var rest := Split(s[1..]);
      assert NoNewline(rest[0]);
      assert NoNewline(s) ==> s == [s[0]] + s[1..];
      [[s[0]] + rest[0]] + rest[1..]
  }

  /** strings.Join(ls, "\n"). */
  function Join(ls: seq<string>): string {
    if |ls| == 0 then "" else if |ls| == 1 then ls[0] else ls[0] + "\n" + Join(ls[1..])
  }

  /** The lines of a text with one more leading character. */
  function Prefixed(c: char, ls: seq<string>): seq<string>
    requires |ls| > 0
  {
    if c == '\n' then [""] + ls else [[c] + ls[0]] + ls[1..]
  }

  lemma SplitCons(c: char, s: string)
    ensures Split([c] + s) == Prefixed(c, Split(s))
  {
    assert ([c] + s)[1..] == s;
  }

  lemma PrefixedConcat(c: char, a: seq<string>, b: seq<string>)
    requires |a| > 0
    ensures Prefixed(c, a + b) == Prefixed(c, a) + b
  {
    assert (a + b)[1..] == a[1..] + b;
  }

  lemma ConcatAssoc(a: string, b: string, c: string, d: string)
    ensures a + (b + c + d) == (a + b) + c + d
  {
  }

  lemma JoinPrefixed(c: char, ls: seq<string>)
    requires |ls| > 0
    ensures Join(Prefixed(c, ls)) == [c] + Join(ls)
  {
    var all := Prefixed(c, ls);
    if c == '\n' {
      assert all[1..] == ls;
      assert Join(all) == "" + "\n" + Join(ls);
    } else if |ls| == 1 {
      assert |all| == 1;
    } else {
      assert all[1..] == ls[1..] && all[0] == [c] + ls[0];
      ConcatAssoc([c], ls[0], "\n", Join(ls[1..]));
    }
  }

  lemma {:induction false} JoinSplit(s: string)
    ensures Join(Split(s)) == s
  {
    if s != "" {
      JoinSplit(s[1..]);
      assert s == [s[0]] + s[1..];
      SplitCons(s[0], s[1..]);
      JoinPrefixed(s[0], Split(s[1..]));
    }
  }

  /** A newline in the text is a boundary between the lines before and after it. */
  lemma {:induction false} SplitAtNewline(a: string, b: string)
    ensures Split(a + "\n" + b) == Split(a) + Split(b)
  {
    if a == "" {
      assert a + "\n" + b == ['\n'] + b;
      SplitCons('\n', b);
    } else {
      var c, tail := a[0], a[1..];
      calc {
        Split(a + "\n" + b);
        { assert a + "\n" + b == [c] + (tail + "\n" + b); }
        Split([c] + (tail + "\n" + b));
        { SplitCons(c, tail + "\n" + b); }
        Prefixed(c, Split(tail + "\n" + b));
        { SplitAtNewline(tail, b); }
        Prefixed(c, Split(tail) + Split(b));
        { PrefixedConcat(c, Split(tail), Split(b)); }
        Prefixed(c, Split(tail)) + Split(b);
        { assert a == [c] + tail; SplitCons(c, tail); }
        Split(a) + Split(b);
      }
    }
  }

  lemma {:induction false} SplitJoin(ls: seq<string>)
    requires |ls| > 0
    requires forall i | 0 <= i < |ls| :: NoNewline(ls[i])
    ensures Split(Join(ls)) == ls
  {
    if |ls| == 1 {
      assert ls == [ls[0]];
    } else {
      SplitJoin(ls[1..]);
      SplitAtNewline(ls[0], Join(ls[1..]));
      assert NoNewline(ls[0]) && Split(ls[0]) == [ls[0]];
      assert ls == [ls[0]] + ls[1..];
    }
  }

  lemma {:induction false} JoinConcat(a: seq<string>, b: seq<string>)
    requires |a| > 0 && |b| > 0
    ensures Join(a + b) == Join(a) + "\n" + Join(b)
  {
    if |a| == 1 {
      assert (a + b)[1..] == b;
    } else {
      assert (a + b)[1..] == a[1..] + b;
      JoinConcat(a[1..], b);
    }
  }

  // ----------------------------------------------------------- white space

  /** unicode.IsSpace: the ASCII and Latin-1 spaces and the wider Unicode ones. */
  predicate IsSpace(c: char) {
    || c == ' ' || '\t' <= c <= '\r' || c as int == 0x85 || c as int == 0xA0
    || c as int == 0x1680 || 0x2000 <= c as int <= 0x200A || c as int == 0x2028
    || c as int == 0x2029 || c as int == 0x202F || c as int == 0x205F || c as int == 0x3000
  }

  predicate Spaceless(s: string) {
    forall i | 0 <= i < |s| :: !IsSpace(s[i])
  }

  predicate AllSpace(s: string) {
    forall i | 0 <= i < |s| :: IsSpace(s[i])
  }

  function TrimLeftSpace(s: string): string {
    if s != "" && IsSpace(s[0]) then TrimLeftSpace(s[1..]) else s
  }

  function TrimRightSpace(s: string): string {
    if s != "" && IsSpace(s[|s| - 1]) then TrimRightSpace(s[..|s| - 1]) else s
  }

  /** strings.TrimSpace. */
  function TrimSpace(s: string): string {
    TrimRightSpace(TrimLeftSpace(s))
  }

  /** A string is its own trimming exactly when neither end is white space. */
  predicate Trimmed(s: string) {
    s == "" || (!IsSpace(s[0]) && !IsSpace(s[|s| - 1]))
  }

  // --------------------------------------------------------------- numbers

  predicate IsDigit(c: char) {
    '0' <= c <= '9'
  }

  predicate AllDigits(s: string) {
    forall i | 0 <= i < |s| :: IsDigit(s[i])
  }

  /** The number a string of digits denotes. */
  function DigitsValue(s: string): nat
    requires AllDigits(s)
  {
    if s == "" then 0
    else DigitsValue(s[..|s| - 1]) * 10 + (s[|s| - 1] as int - '0' as int)
  }

  /** strconv.ParseUint(s, 10, bits) with bound == 2^bits. */
  function ParseUint(s: string, bound: nat): (r: Option<nat>)
    ensures r.Some? ==> r.value < bound
  {
    if s != "" && AllDigits(s) && DigitsValue(s) < bound then Some(DigitsValue(s)) else None
  }

  /** strconv.Atoi: an optional sign, digits, and a 64-bit range. */
  function ParseInt(s: string): Option<int> {
    if s == "" then None
    else if s[0] == '-' then
      match ParseUint(s[1..], 0x8000_0000_0000_0001)
      case Some(n) => Some(-(n as int))
      case None => None
    else
      match ParseUint(if s[0] == '+' then s[1..] else s, 0x8000_0000_0000_0000)
      case Some(n) => Some(n)
      case None => None
  }

  /** %d of a natural number. */
  function Digits(n: nat): (s: string)
    ensures s != "" && AllDigits(s)
  {
    var last := [(n % 10 + '0' as int) as char];
    if n < 10 then last else Digits(n / 10) + last
  }

  /** %d of an integer. */
  function Decimal(n: int): string {
    if n < 0 then "-" + Digits(-n) else Digits(n)
  }

  lemma {:induction false} DigitsRoundTrip(n: nat)
    ensures DigitsValue(Digits(n)) == n
  {
    var s := Digits(n);
    if n >= 10 {
      DigitsRoundTrip(n / 10);
      assert s[..|s| - 1] == Digits(n / 10);
    } else {
      assert s[..|s| - 1] == "";
    }
  }

  lemma DecimalRoundTrip(n: int)
    requires -0x8000_0000_0000_0000 <= n < 0x8000_0000_0000_0000
    ensures ParseInt(Decimal(n)) == Some(n)
  {
    if n < 0 {
      DigitsRoundTrip(-n);
      assert Decimal(n)[1..] == Digits(-n);
    } else {
      DigitsRoundTrip(n);
      assert IsDigit(Digits(n)[0]);
    }
  }

  function Pow10(k: nat): nat {
    if k == 0 then 1 else 10 * Pow10(k - 1)
  }

  lemma {:induction false} DigitsShort(n: nat, k: nat)
    requires k > 0 && n < Pow10(k)
    ensures |Digits(n)| <= k
  {
    if n >= 10 {
      DigitsShort(n / 10, k - 1);
    }
  }

  lemma PowersOfTen()
    ensures Pow10(10) == 10_000_000_000 && Pow10(20) == 100_000_000_000_000_000_000
  {
    assert Pow10(5) == 100_000;
    assert Pow10(10) == 10_000_000_000;
    assert Pow10(15) == 1_000_000_000_000_000;
  }
}
