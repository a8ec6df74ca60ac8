/** Length-prefixed key texts. A string here is a UTF-8 byte string, one `char` per byte, so `|s|` is
    Rust's `len`. */
module KeyText {
  import opened Text

  /** `{len}:{value}`. */
  function Prefixed(value: string): string { Decimal(|value|) + ":" + value }

  /** Parts joined by a one-byte separator. */
  function Joined(parts: seq<string>, separator: char): string {
    if parts == [] then ""
    else if |parts| == 1 then parts[0]
    else parts[0] + [separator] + Joined(parts[1..], separator)
  }

  lemma DecimalsDiffer(m: nat, n: nat)
    requires Decimal(m) == Decimal(n)
    ensures m == n
  {
    DecimalReadsBack(m);
    DecimalReadsBack(n);
  }

  lemma ColonEndsDigits(n: nat, x: string)
    ensures DigitRun(Decimal(n) + (":" + x)) == |Decimal(n)|
  {
    DecimalReadsBack(n);
    DigitsRun(Decimal(n));
    DigitRunStops(Decimal(n), ":" + x);
  }

  lemma SplitAt<T>(a: seq<T>, x: seq<T>, b: seq<T>, y: seq<T>)
    requires a + x == b + y && |a| == |b|
    ensures a == b && x == y
  {
    assert (a + x)[..|a|] == a && (b + y)[..|b|] == b;
    assert (a + x)[|a|..] == x && (b + y)[|b|..] == y;
  }

  lemma Regroup<T>(a: seq<T>, b: seq<T>, c: seq<T>)
    ensures a + b + c == a + (b + c)
  {
  }

  lemma PrefixedParts(value: string, rest: string)
    ensures Prefixed(value) + rest == Decimal(|value|) + (":" + (value + rest))
  {
    hide Decimal;
    var d := Decimal(|value|);
    Regroup(d + ":", value, rest);
    Regroup(d, ":", value + rest);
  }

  /** A prefixed text shows where it ends, whatever follows it. */
  lemma PrefixedIsPrefixFree(a: string, x: string, b: string, y: string)
    requires Prefixed(a) + x == Prefixed(b) + y
    ensures a == b && x == y
  {
    hide Prefixed, Decimal, DigitRun;
    PrefixedParts(a, x);
    PrefixedParts(b, y);
    ColonEndsDigits(|a|, a + x);
    ColonEndsDigits(|b|, b + y);
    SplitAt(Decimal(|a|), ":" + (a + x), Decimal(|b|), ":" + (b + y));
    DecimalsDiffer(|a|, |b|);
    SplitAt(":", a + x, ":", b + y);
    SplitAt(a, x, b, y);
  }
}
