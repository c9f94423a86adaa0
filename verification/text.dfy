/** The pieces of Rust's `str` API that the protocol code relies on:
    `trim`, `splitn(2, c)`, `split(c)`, `u32`'s `Display` and `u32::from_str`. */
module Text {
  import opened Wrappers

  /** Rust's `u32`. */
  newtype u32 = x: int | 0 <= x < 0x1_0000_0000

  const U32_LIMIT: nat := 0x1_0000_0000

  // ---------------------------------------------------------------------------
  // trim

  /** The Unicode White_Space property, which is what `str::trim` strips. */
  predicate IsWhitespace(c: char) {
    var n := c as int;
    (0x09 <= n <= 0x0D) || n == 0x20 || n == 0x85 || n == 0xA0 || n == 0x1680
    || (0x2000 <= n <= 0x200A) || n == 0x2028 || n == 0x2029 || n == 0x202F
    || n == 0x205F || n == 0x3000
  }

  ghost predicate AllWhitespace(s: string) {
    forall i :: 0 <= i < |s| ==> IsWhitespace(s[i])
  }

  /** `str::trim_start`: the longest suffix of `s` that does not start with white space. */
  function TrimStart(s: string): (r: string)
    ensures |r| <= |s| && r == s[|s| - |r|..]
    ensures AllWhitespace(s[..|s| - |r|])
    ensures r == [] || !IsWhitespace(r[0])
  {
    if s != [] && IsWhitespace(s[0]) then
      var r := TrimStart(s[1..]);
      assert s[..|s| - |r|] == [s[0]] + s[1..][..|s| - 1 - |r|];
      r
    else
      s
  }

  /** `str::trim_end`: the longest prefix of `s` that does not end with white space. */
  function TrimEnd(s: string): (r: string)
    ensures |r| <= |s| && r == s[..|r|]
    ensures AllWhitespace(s[|r|..])
    ensures r == [] || !IsWhitespace(r[|r| - 1])
  {
    if s != [] && IsWhitespace(s[|s| - 1]) then
      var r := TrimEnd(s[..|s| - 1]);
      assert s[|r|..] == s[..|s| - 1][|r|..] + [s[|s| - 1]];
      r
    else
      s
  }

  /** `str::trim`: `s` without its leading and trailing white space. */
  function Trim(s: string): (r: string)
    ensures |r| <= |s|
    ensures r == [] || (!IsWhitespace(r[0]) && !IsWhitespace(r[|r| - 1]))
    ensures r == [] <==> AllWhitespace(s)
  {
    var t := TrimStart(s);
    var r := TrimEnd(t);
    assert r == [] ==> s == s[..|s| - |t|] + t[|r|..];
    assert AllWhitespace(s) && t != [] ==> IsWhitespace(t[0]) by {
      if AllWhitespace(s) && t != [] {
        assert t[0] == s[|s| - |t|];
      }
    }
    assert r != [] ==> r[0] == t[0];
    r
  }

  /** Text whose first and last characters are not white space: what `trim` leaves. */
  ghost predicate Trimmed(s: string) {
    s == [] || (!IsWhitespace(s[0]) && !IsWhitespace(s[|s| - 1]))
  }

  lemma {:induction false} TrimStartSkips(pre: string, x: string)
    requires AllWhitespace(pre)
    requires x == [] || !IsWhitespace(x[0])
    ensures TrimStart(pre + x) == x
  {
    if pre != [] {
      assert (pre + x)[1..] == pre[1..] + x;
      TrimStartSkips(pre[1..], x);
    } else {
      assert pre + x == x;
    }
  }

  lemma {:induction false} TrimEndSkips(x: string, post: string)
    requires AllWhitespace(post)
    requires x == [] || !IsWhitespace(x[|x| - 1])
    ensures TrimEnd(x + post) == x
  {
    if post != [] {
      assert (x + post)[..|x + post| - 1] == x + post[..|post| - 1];
      TrimEndSkips(x, post[..|post| - 1]);
    } else {
      assert x + post == x;
    }
  }

  /** Trimming removes exactly the white space around a trimmed core, and nothing more. */
  lemma {:induction false} TrimPadded(pre: string, core: string, post: string)
    requires AllWhitespace(pre) && AllWhitespace(post) && Trimmed(core)
    ensures Trim(pre + core + post) == core
  {
    if core == [] {
      assert pre + core + post == pre + post;
      assert AllWhitespace(pre + post) by {
        forall i | 0 <= i < |pre + post| ensures IsWhitespace((pre + post)[i]) {
          if i >= |pre| { assert (pre + post)[i] == post[i - |pre|]; }
        }
      }
    } else {
      assert pre + core + post == pre + (core + post);
      TrimStartSkips(pre, core + post);
      TrimEndSkips(core, post);
    }
  }

  // ---------------------------------------------------------------------------
  // splitn(2, c) and split(c)

  /** Position of the first `c` in `s`, or `|s|` when there is none. */
  function IndexOf(s: string, c: char): (i: nat)
    ensures i <= |s|
    ensures i < |s| ==> s[i] == c
    ensures c !in s[..i]
  {
    if s == [] then 0
    else if s[0] == c then 0
    else
      var i := 1 + IndexOf(s[1..], c);
      assert s[..i] == [s[0]] + s[1..][..i - 1];
      i
  }

  /** The text up to (not including) the first `:`. */
  function Field(s: string): (r: string)
    ensures ':' !in r
    ensures r == s || (|r| < |s| && s[|r|] == ':')
    ensures r == s[..|r|]
  {
    s[..IndexOf(s, ':')]
  }

  /** `s.splitn(2, c)`: the whole text when `c` does not occur, otherwise the text
      before the first `c` and the text after it. Never empty. */
  function SplitOnce(s: string, c: char): (parts: seq<string>)
    ensures 1 <= |parts| <= 2
    ensures |parts| == 1 <==> c !in s
    ensures |parts| == 1 ==> parts[0] == s
    ensures |parts| == 2 ==> s == parts[0] + [c] + parts[1] && c !in parts[0]
  {
    var i := IndexOf(s, c);
    if i == |s| then
      assert s[..i] == s;
      [s]
    else
      assert s == s[..i] + [c] + s[i + 1..];
      [s[..i], s[i + 1..]]
  }

  /** The inverse of `split`: the parts glued together with `c`. */
  function Join(parts: seq<string>, c: char): string
    requires |parts| >= 1
  {
    if |parts| == 1 then parts[0] else parts[0] + [c] + Join(parts[1..], c)
  }

  /** `s.split(c)`: the maximal `c`-free pieces between occurrences of `c`. Never empty. */
  function Split(s: string, c: char): (parts: seq<string>)
    ensures |parts| >= 1
    ensures forall k :: 0 <= k < |parts| ==> c !in parts[k]
    ensures Join(parts, c) == s
    decreases |s|
  {
    var i := IndexOf(s, c);
    if i == |s| then
      assert s[..i] == s;
      [s]
    else
      var rest := Split(s[i + 1..], c);
      var parts := [s[..i]] + rest;
      assert parts[1..] == rest;
      assert s == s[..i] + [c] + s[i + 1..];
      parts
  }

  /** A text is split at its first separator, whatever follows. */
  lemma {:induction false} IndexOfPrefix(a: string, c: char, b: string)
    requires c !in a
    ensures IndexOf(a + [c] + b, c) == |a|
  {
    if a != [] {
      assert (a + [c] + b)[1..] == a[1..] + [c] + b;
      IndexOfPrefix(a[1..], c, b);
    }
  }

  /** A text splits in only one way around a first separator. */
  lemma SplitUnique(a: string, b: string, x: string, y: string, c: char)
    requires c !in a && c !in x
    requires a + [c] + b == x + [c] + y
    ensures a == x && b == y
  {
    IndexOfPrefix(a, c, b);
    IndexOfPrefix(x, c, y);
    assert |a| == |x|;
    assert a == (a + [c] + b)[..|a|];
    assert x == (x + [c] + y)[..|x|];
    assert b == (a + [c] + b)[|a| + 1..];
    assert y == (x + [c] + y)[|x| + 1..];
  }

  /** `split` undoes `Join` when no piece holds the separator. */
  lemma {:induction false} SplitJoin(parts: seq<string>, c: char)
    requires |parts| >= 1
    requires forall k :: 0 <= k < |parts| ==> c !in parts[k]
    ensures Split(Join(parts, c), c) == parts
  {
    if |parts| == 1 {
      assert IndexOf(parts[0], c) == |parts[0]|;
    } else {
      var s := Join(parts, c);
      assert s == parts[0] + [c] + Join(parts[1..], c);
      IndexOfPrefix(parts[0], c, Join(parts[1..], c));
      assert s[..|parts[0]|] == parts[0];
      assert s[|parts[0]| + 1..] == Join(parts[1..], c);
      SplitJoin(parts[1..], c);
      assert parts == [parts[0]] + parts[1..];
    }
  }

  /** A colon-free text is its own first field; otherwise the first field ends at the first colon. */
  lemma FieldOf(a: string, b: string)
    requires ':' !in a
    ensures Field(a) == a
    ensures Field(a + ":" + b) == a
  {
    IndexOfPrefix(a, ':', b);
    assert (a + ":" + b)[..|a|] == a;
    assert IndexOf(a, ':') == |a| by {
      var i := IndexOf(a, ':');
      assert a[..i] + a[i..] == a;
    }
  }

  /** `splitn(2, ':')` yields the first field and, when there is a colon, all that follows it. */
  lemma SplitOnceAtField(s: string)
    ensures SplitOnce(s, ':')[0] == Field(s)
    ensures |SplitOnce(s, ':')| == 2 ==> SplitOnce(s, ':')[1] == s[|Field(s)| + 1..]
  {
  }

  /** `split(':')` yields the first field, and a second piece exactly when there is a
      colon: the field that follows the first colon. */
  lemma SplitAtFields(s: string)
    ensures Split(s, ':')[0] == Field(s)
    ensures |Split(s, ':')| >= 2 <==> ':' in s
    ensures ':' in s ==> Split(s, ':')[1] == Field(s[|Field(s)| + 1..])
  {
    var i := IndexOf(s, ':');
    if i < |s| {
      var rest := s[i + 1..];
      assert Split(s, ':') == [s[..i]] + Split(rest, ':');
      var j := IndexOf(rest, ':');
      if j == |rest| {
        assert rest[..j] == rest;
      }
      assert Split(rest, ':')[0] == rest[..j];
    } else {
      assert s[..i] == s;
    }
  }

  // ---------------------------------------------------------------------------
  // decimal numbers

  predicate IsDigit(ch: char) {
    '0' <= ch <= '9'
  }

  predicate AllDigits(s: string) {
    forall i :: 0 <= i < |s| ==> IsDigit(s[i])
  }

  function DigitValue(ch: char): (d: nat)
    requires IsDigit(ch)
    ensures d < 10
  {
    ch as int - '0' as int
  }

  function DigitChar(d: nat): (ch: char)
    requires d < 10
    ensures IsDigit(ch) && DigitValue(ch) == d
  {
    ('0' as int + d) as char
  }

  /** The value of the digits `s` read after an already accumulated value `acc`. */
  function DecimalFrom(acc: nat, s: string): nat
    requires AllDigits(s)
    decreases |s|
  {
    if s == [] then acc else DecimalFrom(acc * 10 + DigitValue(s[0]), s[1..])
  }

  /** The value of a string of decimal digits. */
  function DecimalValue(s: string): nat
    requires AllDigits(s)
  {
    DecimalFrom(0, s)
  }

  lemma {:induction false} DecimalFromAppend(acc: nat, a: string, b: string)
    requires AllDigits(a) && AllDigits(b)
    ensures AllDigits(a + b)
    ensures DecimalFrom(acc, a + b) == DecimalFrom(DecimalFrom(acc, a), b)
    decreases |a|
  {
    assert AllDigits(a + b) by {
      forall i | 0 <= i < |a + b| ensures IsDigit((a + b)[i]) {
        if i >= |a| { assert (a + b)[i] == b[i - |a|]; }
      }
    }
    if a != [] {
      assert (a + b)[1..] == a[1..] + b;
      DecimalFromAppend(acc * 10 + DigitValue(a[0]), a[1..], b);
    } else {
      assert a + b == b;
    }
  }

  /** Reading more digits never lowers the value. */
  lemma {:induction false} DecimalFromGrows(acc: nat, s: string)
    requires AllDigits(s)
    ensures DecimalFrom(acc, s) >= acc
    decreases |s|
  {
    if s != [] {
      DecimalFromGrows(acc * 10 + DigitValue(s[0]), s[1..]);
    }
  }

  /** `u32`'s `Display`: the shortest decimal text of `n`. */
  function NatToDecimal(n: nat): (r: string)
    ensures |r| >= 1 && AllDigits(r)
    ensures DecimalValue(r) == n
    ensures r[0] != '0' || r == "0"
  {
    if n < 10 then
      var r := [DigitChar(n)];
      assert r[1..] == [];
      assert DecimalFrom(0, r) == DecimalFrom(n, r[1..]);
      r
    else
      var prefix := NatToDecimal(n / 10);
      DecimalFromAppend(0, prefix, [DigitChar(n % 10)]);
      prefix + [DigitChar(n % 10)]
  }

  /** The digit loop of `u32::from_str`: each step multiplies by ten and adds
      the next digit, failing on a non-digit or as soon as the value leaves `u32`. */
  function Accumulate(acc: nat, s: string): (r: Option<u32>)
    requires acc < U32_LIMIT
    ensures r.Some? <==> AllDigits(s) && DecimalFrom(acc, s) < U32_LIMIT
    ensures r.Some? ==> r.value as nat == DecimalFrom(acc, s)
    decreases |s|
  {
    if s == [] then
      Some(acc as u32)
    else if !IsDigit(s[0]) then
      None
    else
      var next := acc * 10 + DigitValue(s[0]);
      if next >= U32_LIMIT then
        assert AllDigits(s) ==> DecimalFrom(acc, s) >= U32_LIMIT by {
          if AllDigits(s) {
            assert AllDigits(s[1..]);
            DecimalFromGrows(next, s[1..]);
          }
        }
        None
      else
        assert AllDigits(s) <==> AllDigits(s[1..]) by {
          if AllDigits(s[1..]) {
            forall i | 0 <= i < |s| ensures IsDigit(s[i]) {
              if i > 0 { assert s[i] == s[1..][i - 1]; }
            }
          }
        }
        Accumulate(next, s[1..])
  }

  /** `str::parse::<u32>`: an optional `+`, then at least one ASCII digit, with a
      value below 2^32. Anything else (empty text, a sign alone, `-`, white space,
      another character, overflow) fails. */
  function ParseU32(s: string): (r: Option<u32>)
    ensures r.Some? <==>
      || (|s| >= 1 && AllDigits(s) && DecimalValue(s) < U32_LIMIT)
      || (|s| >= 2 && s[0] == '+' && AllDigits(s[1..]) && DecimalValue(s[1..]) < U32_LIMIT)
    ensures r.Some? && s[0] != '+' ==> r.value as nat == DecimalValue(s)
    ensures r.Some? && s[0] == '+' ==> r.value as nat == DecimalValue(s[1..])
  {
    var digits := if |s| >= 1 && s[0] == '+' then s[1..] else s;
    if digits == [] then None else Accumulate(0, digits)
  }

  /** Parsing the decimal text of a `u32` gives it back. */
  lemma ParseU32Decimal(n: u32)
    ensures ParseU32(NatToDecimal(n as nat)) == Some(n)
  {
    var d := NatToDecimal(n as nat);
    assert IsDigit(d[0]);
  }
}
