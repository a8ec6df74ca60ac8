/** Which column names a pivot keeps when it names its columns after the column key value
    (`render_column_name` in native/engine/src/pivot.rs). */
module PivotNames {
  import opened Wrappers
  import opened Text
  import opened Pivot

  // ----- replacing

  predicate Opens(c: char) { c == '<' || c == '{' }

  /** A placeholder opens with its first character and nowhere else. */
  predicate IsPlaceholder(pattern: string) {
    pattern != "" && Opens(pattern[0]) && forall i :: 0 < i < |pattern| ==> !Opens(pattern[i])
  }

  /** A placeholder does not begin at another character. */
  lemma NotHere(s: string, pattern: string)
    requires IsPlaceholder(pattern) && (s == "" || !Opens(s[0]))
    ensures |s| < |pattern| || s[..|pattern|] != pattern
  {
    if |s| >= |pattern| { assert s[..|pattern|][0] == s[0]; }
  }

  /** A text that cannot be taken for the start of a placeholder. */
  predicate Closed(text: string) { text != "" && !Opens(text[0]) }

  /** `changed` leaves `s` at a place where `s` has an opening bracket and it has none. */
  ghost predicate LosesBracket(s: string, changed: string, k: nat) {
    k < |s| && k < |changed| && s[..k] == changed[..k] && Opens(s[k]) && !Opens(changed[k])
  }

  ghost predicate Departs(s: string, changed: string) { exists k: nat :: LosesBracket(s, changed, k) }

  /** Where a replacement happens the text departs. */
  lemma {:induction false} ReplacingDeparts(s: string, pattern: string, text: string)
    requires IsPlaceholder(pattern) && Closed(text) && Contains(s, pattern)
    ensures Departs(s, Replace(s, pattern, text))
  {
    var changed := Replace(s, pattern, text);
    if s[..|pattern|] == pattern {
      assert changed[0] == text[0] && s[0] == pattern[0];
      assert LosesBracket(s, changed, 0);
    } else {
      ReplacingDeparts(s[1..], pattern, text);
      var k: nat :| LosesBracket(s[1..], Replace(s[1..], pattern, text), k);
      Shifted(s, changed, k);
    }
  }

  lemma Shifted(s: string, changed: string, k: nat)
    requires s != "" && changed != "" && s[0] == changed[0] && LosesBracket(s[1..], changed[1..], k)
    ensures LosesBracket(s, changed, k + 1)
  {
    assert s[..k + 1] == [s[0]] + s[1..][..k] && changed[..k + 1] == [changed[0]] + changed[1..][..k];
  }

  /** A text that has departed does not come back by replacing. */
  lemma {:induction false} DepartedStays(s: string, changed: string, k: nat, pattern: string, text: string)
    requires LosesBracket(s, changed, k) && IsPlaceholder(pattern) && Closed(text)
    ensures Departs(s, Replace(changed, pattern, text))
    decreases k
  {
    var next := Replace(changed, pattern, text);
    if |changed| < |pattern| {
    } else if changed[..|pattern|] == pattern {
      assert changed[0] == pattern[0] && next[0] == text[0];
      assert k > 0 && s[..k][0] == changed[..k][0];
      assert LosesBracket(s, next, 0);
    } else if k == 0 {
      assert LosesBracket(s, next, 0);
    } else {
      assert s[..k][0] == changed[..k][0];
      assert s[1..][..k - 1] == s[..k][1..] && changed[1..][..k - 1] == changed[..k][1..];
      DepartedStays(s[1..], changed[1..], k - 1, pattern, text);
      var j: nat :| LosesBracket(s[1..], Replace(changed[1..], pattern, text), j);
      Shifted(s, next, j);
    }
  }

  /** Replacing in a text that is still the same or has departed. */
  lemma ReplaceStep(s: string, changed: string, pattern: string, text: string)
    requires s == changed || Departs(s, changed)
    requires IsPlaceholder(pattern) && Closed(text)
    ensures var next := Replace(changed, pattern, text);
      if s == changed && !Contains(s, pattern) then next == s else Departs(s, next)
  {
    if s == changed {
      if Contains(s, pattern) { ReplacingDeparts(s, pattern, text); } else { ReplaceNothing(s, pattern, text); }
    } else {
      var k: nat :| LosesBracket(s, changed, k);
      DepartedStays(s, changed, k, pattern, text);
    }
  }

  lemma DepartedDiffers(s: string, changed: string)
    requires Departs(s, changed)
    ensures s != changed
  {
  }

  // ----- the placeholders of the value key and the aggregation

  function Refill(s: string, valueName: string, aggregation: string): string {
    var c := Replace(s, VALUE_NAME, valueName);
    var d := Replace(c, VALUE_NAME_BRACES, valueName);
    var e := Replace(d, AGG, aggregation);
    Replace(e, AGG_BRACES, aggregation)
  }

  predicate NothingToRefill(s: string) {
    !Contains(s, VALUE_NAME) && !Contains(s, VALUE_NAME_BRACES) && !Contains(s, AGG) && !Contains(s, AGG_BRACES)
  }

  /** Either nothing was replaced or the text departed. */
  lemma RefillDeparts(s: string, valueName: string, aggregation: string)
    requires Closed(valueName) && Closed(aggregation)
    ensures if NothingToRefill(s) then Refill(s, valueName, aggregation) == s
            else Departs(s, Refill(s, valueName, aggregation))
  {
    hide Contains, Replace, Departs;
    var c := Replace(s, VALUE_NAME, valueName);
    var d := Replace(c, VALUE_NAME_BRACES, valueName);
    var e := Replace(d, AGG, aggregation);
    ReplaceStep(s, s, VALUE_NAME, valueName);
    ReplaceStep(s, c, VALUE_NAME_BRACES, valueName);
    ReplaceStep(s, d, AGG, aggregation);
    ReplaceStep(s, e, AGG_BRACES, aggregation);
    if s == c { } else { assert Departs(s, c); }
  }

  // ----- occurrences of the column value's placeholder

  function Count(s: string, pattern: string): nat
    requires pattern != ""
  {
    if |s| < |pattern| then 0 else (if s[..|pattern|] == pattern then 1 else 0) + Count(s[1..], pattern)
  }

  lemma {:induction false} CountedIsContained(s: string, pattern: string)
    requires pattern != ""
    ensures Count(s, pattern) > 0 <==> Contains(s, pattern)
  {
    if |s| >= |pattern| { CountedIsContained(s[1..], pattern); }
  }

  lemma {:induction false} CountBehind(x: string, y: string, pattern: string)
    requires pattern != ""
    ensures Count(x + y, pattern) >= Count(y, pattern)
  {
    if x == "" {
      assert x + y == y;
    } else {
      assert (x + y)[1..] == x[1..] + y;
      CountBehind(x[1..], y, pattern);
      if |x + y| < |pattern| { assert |y| < |pattern|; }
    }
  }

  lemma {:induction false} CountBoth(x: string, y: string, pattern: string)
    requires pattern != ""
    ensures Count(x + y, pattern) >= Count(x, pattern) + Count(y, pattern)
  {
    if |x| < |pattern| {
      CountBehind(x, y, pattern);
    } else {
      assert (x + y)[1..] == x[1..] + y && (x + y)[..|pattern|] == x[..|pattern|];
      CountBoth(x[1..], y, pattern);
    }
  }

  /** Below an occurrence of a placeholder no other one begins. */
  lemma {:induction false} CountPast(s: string, pattern: string, other: string, n: nat)
    requires IsPlaceholder(pattern) && IsPlaceholder(other) && |s| >= |other| && s[..|other|] == other
    requires 0 < n <= |other|
    ensures Count(s[n..], pattern) == Count(s[|other|..], pattern)
    decreases |other| - n
  {
    if n < |other| {
      CountPast(s, pattern, other, n + 1);
      assert s[n..][1..] == s[n + 1..];
      assert s[n] == other[n];
      NotHere(s[n..], pattern);
      if |s[n..]| < |pattern| { CountShort(s[n + 1..], pattern); }
    }
  }

  lemma CountShort(s: string, pattern: string)
    requires |s| < |pattern|
    ensures Count(s, pattern) == 0
  {
  }

  /** What replacing leaves before the first bracket. */
  lemma {:induction false} ReplaceKeepsStart(s: string, pattern: string, text: string, n: nat)
    requires IsPlaceholder(pattern) && n <= |s| && forall i :: 0 <= i < n ==> !Opens(s[i])
    ensures |Replace(s, pattern, text)| >= n && Replace(s, pattern, text)[..n] == s[..n]
  {
    if n > 0 && |s| >= |pattern| {
      NotHere(s, pattern);
      ReplaceKeepsStart(s[1..], pattern, text, n - 1);
      assert Replace(s, pattern, text)[..n] == [s[0]] + Replace(s[1..], pattern, text)[..n - 1];
      assert s[..n] == [s[0]] + s[1..][..n - 1];
    }
  }

  /** Replacing another placeholder loses no occurrence. */
  lemma {:induction false} CountKept(s: string, pattern: string, other: string, text: string)
    requires IsPlaceholder(pattern) && IsPlaceholder(other) && !(pattern <= other) && !(other <= pattern)
    ensures Count(Replace(s, other, text), pattern) >= Count(s, pattern)
  {
    if |s| < |other| {
    } else if s[..|other|] == other {
      CountPast(s, pattern, other, 1);
      CountKept(s[|other|..], pattern, other, text);
      CountBehind(text, Replace(s[|other|..], other, text), pattern);
      if |s| >= |pattern| && s[..|pattern|] == pattern { OneIsPrefix(s, pattern, other); }
      assert Count(s, pattern) <= Count(s[1..], pattern);
    } else {
      CountKept(s[1..], pattern, other, text);
      var rest := Replace(s[1..], other, text);
      assert Replace(s, other, text) == [s[0]] + rest && ([s[0]] + rest)[1..] == rest;
      if |s| >= |pattern| && s[..|pattern|] == pattern {
        assert forall i :: 0 < i < |pattern| ==> s[i] == pattern[i];
        ReplaceKeepsStart(s[1..], other, text, |pattern| - 1);
        assert ([s[0]] + rest)[..|pattern|] == [s[0]] + rest[..|pattern| - 1];
        assert s[..|pattern|] == [s[0]] + s[1..][..|pattern| - 1];
      } else {
        CountBehind([s[0]], rest, pattern);
      }
    }
  }

  lemma OneIsPrefix(s: string, a: string, b: string)
    requires a <= s && b <= s
    ensures a <= b || b <= a
  {
    if |a| <= |b| { assert b[..|a|] == s[..|a|]; } else { assert a[..|b|] == s[..|b|]; }
  }

  /** Replacing by a text multiplies the occurrences. */
  lemma {:induction false} CountMultiplies(s: string, pattern: string, text: string)
    requires IsPlaceholder(pattern)
    ensures Count(Replace(s, pattern, text), pattern) >= Count(s, pattern) * Count(text, pattern)
  {
    if |s| < |pattern| {
    } else if s[..|pattern|] == pattern {
      var rest := s[|pattern|..];
      CountPast(s, pattern, pattern, 1);
      CountMultiplies(rest, pattern, text);
      CountBoth(text, Replace(rest, pattern, text), pattern);
      Distributes(Count(rest, pattern), Count(text, pattern));
    } else {
      CountMultiplies(s[1..], pattern, text);
      CountBehind([s[0]], Replace(s[1..], pattern, text), pattern);
    }
  }

  lemma Distributes(n: nat, m: nat)
    ensures (1 + n) * m == m + n * m
  {
  }

  lemma RefillKeepsCount(s: string, valueName: string, aggregation: string)
    ensures Count(Refill(s, valueName, aggregation), COLUMN_VALUE_BRACES) >= Count(s, COLUMN_VALUE_BRACES)
  {
    hide Count, Replace;
    assert COLUMN_VALUE_BRACES[1] == 'c' && VALUE_NAME_BRACES[1] == 'v' && AGG_BRACES[1] == 'a';
    var c := Replace(s, VALUE_NAME, valueName);
    var d := Replace(c, VALUE_NAME_BRACES, valueName);
    CountKept(s, COLUMN_VALUE_BRACES, VALUE_NAME, valueName);
    CountKept(c, COLUMN_VALUE_BRACES, VALUE_NAME_BRACES, valueName);
    CountKept(d, COLUMN_VALUE_BRACES, AGG, aggregation);
    CountKept(Replace(d, AGG, aggregation), COLUMN_VALUE_BRACES, AGG_BRACES, aggregation);
  }

  // ----- splitting at an occurrence

  lemma NoneAcross(x: string, y: string, pattern: string)
    requires IsPlaceholder(pattern) && x != "" && y != "" && Opens(y[0]) && !(pattern <= x)
    ensures !(pattern <= x + y)
  {
    if |x| < |pattern| <= |x + y| {
      assert (x + y)[..|pattern|][|x|] == y[0];
    } else if |x| >= |pattern| {
      assert (x + y)[..|pattern|] == x[..|pattern|];
    }
  }

  lemma ReplaceAt(x: string, pattern: string, text: string)
    requires pattern != "" && pattern <= x
    ensures Replace(x, pattern, text) == text + Replace(x[|pattern|..], pattern, text)
  {
  }

  /** Replacing does not reach over an opening bracket. */
  lemma {:induction false} ReplaceSplits(x: string, y: string, pattern: string, text: string)
    requires IsPlaceholder(pattern) && y != "" && Opens(y[0])
    ensures Replace(x + y, pattern, text) == Replace(x, pattern, text) + Replace(y, pattern, text)
  {
    hide Replace;
    if x == "" {
      ReplaceNone(pattern, text);
      assert x + y == y;
    } else if pattern <= x {
      assert (x + y)[..|pattern|] == x[..|pattern|] && (x + y)[|pattern|..] == x[|pattern|..] + y;
      ReplaceSplits(x[|pattern|..], y, pattern, text);
      ReplaceAt(x, pattern, text);
      ReplaceAt(x + y, pattern, text);
    } else {
      NoneAcross(x, y, pattern);
      assert (x + y)[1..] == x[1..] + y;
      ReplaceSplits(x[1..], y, pattern, text);
      ReplaceOnce(x, pattern, text);
      ReplaceOnce(x + y, pattern, text);
    }
  }

  lemma ReplaceNone(pattern: string, text: string)
    requires pattern != ""
    ensures Replace("", pattern, text) == ""
  {
  }

  lemma ReplaceOnce(x: string, pattern: string, text: string)
    requires pattern != "" && x != "" && !(pattern <= x)
    ensures Replace(x, pattern, text) == [x[0]] + Replace(x[1..], pattern, text)
  {
    if |x| < |pattern| { assert x == [x[0]] + x[1..]; }
  }

  /** A placeholder stands when another one is replaced. */
  lemma {:induction false} ReplaceBehind(pattern: string, text: string, other: string, n: nat, y: string)
    requires IsPlaceholder(pattern) && IsPlaceholder(other) && !(pattern <= other + y) && n <= |other|
    ensures Replace(other[n..] + y, pattern, text) == other[n..] + Replace(y, pattern, text)
    decreases |other| - n
  {
    hide Replace;
    if n == |other| {
      assert other[n..] + y == y && other[n..] == "";
    } else {
      var s := other[n..] + y;
      assert s[0] == other[n] && s[1..] == other[n + 1..] + y;
      ReplaceBehind(pattern, text, other, n + 1, y);
      if n == 0 { assert s == other + y; } else { NotHere(s, pattern); }
      ReplaceOnce(s, pattern, text);
      assert other[n..] == [other[n]] + other[n + 1..];
    }
  }

  /** Refilling goes on separately before and behind an occurrence. */
  lemma RefillSplits(x: string, y: string, valueName: string, aggregation: string)
    ensures Refill(x + COLUMN_VALUE_BRACES + y, valueName, aggregation)
         == Refill(x, valueName, aggregation) + COLUMN_VALUE_BRACES + Refill(y, valueName, aggregation)
  {
    hide Replace;
    Passes(x, y, VALUE_NAME, valueName);
    var x1, y1 := Replace(x, VALUE_NAME, valueName), Replace(y, VALUE_NAME, valueName);
    Passes(x1, y1, VALUE_NAME_BRACES, valueName);
    var x2, y2 := Replace(x1, VALUE_NAME_BRACES, valueName), Replace(y1, VALUE_NAME_BRACES, valueName);
    Passes(x2, y2, AGG, aggregation);
    Passes(Replace(x2, AGG, aggregation), Replace(y2, AGG, aggregation), AGG_BRACES, aggregation);
  }

  lemma Passes(x: string, y: string, pattern: string, text: string)
    requires IsPlaceholder(pattern) && |pattern| > 1 && pattern[1] != 'c'
    ensures Replace(x + COLUMN_VALUE_BRACES + y, pattern, text)
         == Replace(x, pattern, text) + COLUMN_VALUE_BRACES + Replace(y, pattern, text)
  {
    hide Replace;
    var behind := COLUMN_VALUE_BRACES + y;
    assert x + COLUMN_VALUE_BRACES + y == x + behind && behind[0] == '{' && behind[1] == 'c';
    ReplaceSplits(x, behind, pattern, text);
    ReplaceBehind(pattern, text, COLUMN_VALUE_BRACES, 0, y);
    assert COLUMN_VALUE_BRACES[0..] == COLUMN_VALUE_BRACES;
  }

  // ----- names with the column value's placeholder

  lemma StartHasNotDeparted(x: string, y: string)
    ensures !Departs(x + y, x)
  {
    forall k: nat ensures !LosesBracket(x + y, x, k) {
      if k < |x| { assert (x + y)[k] == x[k]; }
    }
  }

  /** A part that comes back from being doubled and refilled is empty. */
  lemma DoubledIsEmpty(x: string, valueName: string, aggregation: string)
    requires Closed(valueName) && Closed(aggregation) && Refill(x + x, valueName, aggregation) == x
    ensures x == ""
  {
    hide Refill, NothingToRefill, Departs;
    RefillDeparts(x + x, valueName, aggregation);
    StartHasNotDeparted(x, x);
    assert |x + x| == |x| + |x|;
  }

  lemma {:induction false} FirstOccurrence(s: string, pattern: string) returns (p: nat)
    requires pattern != "" && Contains(s, pattern)
    ensures p + |pattern| <= |s| && s[p..p + |pattern|] == pattern
  {
    if s[..|pattern|] == pattern {
      p := 0;
    } else {
      var q := FirstOccurrence(s[1..], pattern);
      p := q + 1;
      assert s[1..][q..q + |pattern|] == s[p..p + |pattern|];
    }
  }

  lemma {:induction false} TwoOccurrences(s: string, pattern: string, i: nat, j: nat)
    requires pattern != "" && i < j && j + |pattern| <= |s|
    requires s[i..i + |pattern|] == pattern && s[j..j + |pattern|] == pattern
    ensures Count(s, pattern) >= 2
  {
    assert s == s[..i] + s[i..] && s[i..][..|pattern|] == s[i..i + |pattern|];
    CountBehind(s[..i], s[i..], pattern);
    var rest := s[i..][1..];
    assert rest == rest[..j - i - 1] + s[j..] && s[j..][..|pattern|] == s[j..j + |pattern|];
    CountBehind(rest[..j - i - 1], s[j..], pattern);
  }

  /** A text with one occurrence splits there only. */
  lemma SplitsOnce(pattern: string, x: string, y: string, x': string, y': string)
    requires pattern != "" && x + pattern + y == x' + pattern + y' && Count(x + pattern + y, pattern) == 1
    ensures x == x' && y == y'
  {
    var s := x + pattern + y;
    assert s[|x|..|x| + |pattern|] == pattern;
    assert (x' + pattern + y')[|x'|..|x'| + |pattern|] == pattern;
    if |x| < |x'| { TwoOccurrences(s, pattern, |x|, |x'|); }
    if |x'| < |x| { TwoOccurrences(s, pattern, |x'|, |x|); }
    assert s[..|x|] == x && (x' + pattern + y')[..|x'|] == x';
    assert s[|x| + |pattern|..] == y && (x' + pattern + y')[|x'| + |pattern|..] == y';
  }

  /** With one occurrence, putting the name in its place doubles what stands around it. */
  lemma SelfReplaced(x: string, y: string)
    requires Count(x + COLUMN_VALUE_BRACES + y, COLUMN_VALUE_BRACES) == 1
    ensures var name := x + COLUMN_VALUE_BRACES + y;
      Replace(name, COLUMN_VALUE_BRACES, name) == (x + x) + COLUMN_VALUE_BRACES + (y + y)
  {
    hide Count, Replace, Contains;
    var pattern := COLUMN_VALUE_BRACES;
    var behind := pattern + y;
    var name := x + pattern + y;
    assert name == x + behind && behind[..|pattern|] == pattern && behind[|pattern|..] == y;
    CountBoth(x, behind, pattern);
    CountBoth(pattern, y, pattern);
    CountsItself(pattern);
    ReplaceAt(behind, pattern, name);
    CountedIsContained(x, pattern);
    CountedIsContained(y, pattern);
    ReplaceNothing(x, pattern, name);
    ReplaceNothing(y, pattern, name);
    ReplaceSplits(x, behind, pattern, name);
    assert x + (name + y) == (x + x) + pattern + (y + y);
  }

  lemma CountsItself(pattern: string)
    requires pattern != ""
    ensures Count(pattern, pattern) >= 1
  {
    assert pattern[..|pattern|] == pattern;
  }

  /** No name but the placeholder itself comes back when it is put in the placeholder's place. */
  lemma HolderChanges(name: string, valueName: string, aggregation: string)
    requires Closed(valueName) && Closed(aggregation) && Contains(name, COLUMN_VALUE_BRACES)
    requires Refill(Replace(name, COLUMN_VALUE_BRACES, name), valueName, aggregation) == name
    ensures name == COLUMN_VALUE_BRACES
  {
    hide Replace, Refill, Count, Contains;
    var pattern := COLUMN_VALUE_BRACES;
    var n := Count(name, pattern);
    CountMultiplies(name, pattern, name);
    RefillKeepsCount(Replace(name, pattern, name), valueName, aggregation);
    CountedIsContained(name, pattern);
    NotSquared(n);
    var p := FirstOccurrence(name, pattern);
    var x, y := name[..p], name[p + |pattern|..];
    assert name == x + pattern + y;
    SelfReplaced(x, y);
    RefillSplits(x + x, y + y, valueName, aggregation);
    SplitsOnce(pattern, x, y, Refill(x + x, valueName, aggregation), Refill(y + y, valueName, aggregation));
    DoubledIsEmpty(x, valueName, aggregation);
    DoubledIsEmpty(y, valueName, aggregation);
  }

  lemma NotSquared(n: nat)
    requires n > 0 && n >= n * n
    ensures n == 1
  {
    if n >= 2 { Doubles(n); }
  }

  lemma Doubles(n: nat)
    requires n >= 2
    ensures n * n >= 2 * n
  {
  }

  // ----- the exact condition

  /** The names a pivot keeps, when its columns are named after the column key value. */
  predicate KeepsName(name: string) {
    !Blank(name) && (name == COLUMN_VALUE_BRACES || (!Contains(name, COLUMN_VALUE_BRACES) && NothingToRefill(name)))
  }

  lemma ReplaceWhole(pattern: string, text: string)
    requires pattern != ""
    ensures Replace(pattern, pattern, text) == text
  {
    assert pattern[..|pattern|] == pattern && pattern[|pattern|..] == "";
    assert Replace("", pattern, text) == "" && text + "" == text;
  }

  lemma HolderIsReplaced()
    ensures Replace(COLUMN_VALUE_BRACES, COLUMN_VALUE_BRACES, COLUMN_VALUE_BRACES) == COLUMN_VALUE_BRACES
    ensures NothingToRefill(COLUMN_VALUE_BRACES)
  {
    hide Replace, Contains;
    var holder := COLUMN_VALUE_BRACES;
    ReplaceWhole(holder, holder);
    assert holder[0] == '{' && holder[1] == 'c';
    assert VALUE_NAME[0] == '<' && AGG[0] == '<' && VALUE_NAME_BRACES[1] == 'v' && AGG_BRACES[1] == 'a';
    NothingBehind(holder, VALUE_NAME);
    NothingBehind(holder, VALUE_NAME_BRACES);
    NothingBehind(holder, AGG);
    NothingBehind(holder, AGG_BRACES);
  }

  lemma NothingBehind(holder: string, pattern: string)
    requires IsPlaceholder(pattern) && IsPlaceholder(holder) && !(pattern <= holder)
    ensures !Contains(holder, pattern)
  {
    NothingFrom(holder, pattern, 1);
  }

  lemma {:induction false} NothingFrom(holder: string, pattern: string, n: nat)
    requires IsPlaceholder(pattern) && IsPlaceholder(holder) && 0 < n <= |holder|
    ensures !Contains(holder[n..], pattern)
    decreases |holder| - n
  {
    NotHere(holder[n..], pattern);
    if n < |holder| {
      NothingFrom(holder, pattern, n + 1);
      assert holder[n..][1..] == holder[n + 1..];
    }
  }

  /** A name is kept exactly when it is the column value's own placeholder or holds none at all. */
  lemma NameIsKeptExactly(value: ValueKey, name: string)
    requires value.rule == Some(COLUMN_VALUE) && Closed(ValueName(value)) && Closed(value.aggregation)
    ensures ColumnName(value, Some(name)) == Success(name) <==> KeepsName(name)
  {
    hide Contains, Blank, Replace, NothingToRefill;
    ReplaceWhole(COLUMN_VALUE, name);
    var b := Replace(name, COLUMN_VALUE_BRACES, name);
    assert Rendered(COLUMN_VALUE, name, value) == Refill(b, ValueName(value), value.aggregation);
    RefillDeparts(b, ValueName(value), value.aggregation);
    if name == COLUMN_VALUE_BRACES {
      HolderIsReplaced();
    } else if !Contains(name, COLUMN_VALUE_BRACES) {
      ReplaceNothing(name, COLUMN_VALUE_BRACES, name);
      if !NothingToRefill(name) { DepartedDiffers(name, Rendered(COLUMN_VALUE, name, value)); }
    } else if Rendered(COLUMN_VALUE, name, value) == name {
      HolderChanges(name, ValueName(value), value.aggregation);
    }
  }

  /** A column named after the aggregation's placeholder comes back under another name. */
  lemma PlaceholderIsRenamed()
    ensures ColumnName(ValueKey(None, "value", "first", Some(COLUMN_VALUE)), Some(AGG_BRACES)) == Success("first")
  {
    var value := ValueKey(None, "value", "first", Some(COLUMN_VALUE));
    ReplaceWhole(COLUMN_VALUE, AGG_BRACES);
    NothingBehind(AGG_BRACES, COLUMN_VALUE_BRACES);
    NothingBehind(AGG_BRACES, VALUE_NAME);
    NothingBehind(AGG_BRACES, VALUE_NAME_BRACES);
    NothingBehind(AGG_BRACES, AGG);
    ReplaceNothing(AGG_BRACES, COLUMN_VALUE_BRACES, AGG_BRACES);
    ReplaceNothing(AGG_BRACES, VALUE_NAME, "value");
    ReplaceNothing(AGG_BRACES, VALUE_NAME_BRACES, "value");
    ReplaceNothing(AGG_BRACES, AGG, "first");
    ReplaceWhole(AGG_BRACES, "first");
    assert 'f' in "first";
  }

  // ----- the rules that hold when none is configured

  predicate NoBrackets(s: string) { forall c :: c in s ==> !Opens(c) }

  lemma {:induction false} NothingWithoutBrackets(s: string, pattern: string, text: string)
    requires NoBrackets(s) && IsPlaceholder(pattern)
    ensures Replace(s, pattern, text) == s
  {
    if s != "" {
      NotHere(s, pattern);
      NothingWithoutBrackets(s[1..], pattern, text);
      assert s == [s[0]] + s[1..];
    }
  }

  /** Between text without brackets and nothing, a placeholder is replaced and others stay. */
  lemma OneReplaced(before: string, holder: string, pattern: string, text: string)
    requires NoBrackets(before) && IsPlaceholder(holder) && IsPlaceholder(pattern) && !(pattern <= holder && pattern != holder)
    ensures Replace(before + holder, pattern, text) == before + (if pattern == holder then text else holder)
  {
    hide Replace;
    ReplaceSplits(before, holder, pattern, text);
    NothingWithoutBrackets(before, pattern, text);
    if pattern == holder {
      ReplaceWhole(holder, text);
    } else {
      NothingBehind(holder, pattern);
      ReplaceNothing(holder, pattern, text);
    }
  }

  /** Without a rule a column is named by its column key value, two underscores and the value key's name. */
  lemma DefaultColumnName(value: ValueKey, column: string)
    requires value.rule == None && NoBrackets(column) && NoBrackets(ValueName(value)) && NoBrackets(value.aggregation)
    ensures ColumnName(value, Some(column)) == Success(column + "__" + ValueName(value))
  {
    hide Replace, ValueName;
    var rule := "<column_key_value>__<value_key_name>";
    assert COLUMN_VALUE[0] == '<' && COLUMN_VALUE[1] == 'c' && VALUE_NAME[1] == 'v';
    FirstReplaced(COLUMN_VALUE, "__" + VALUE_NAME, column);
    assert rule == COLUMN_VALUE + ("__" + VALUE_NAME);
    OneReplaced("__", VALUE_NAME, COLUMN_VALUE, column);
    var a := column + ("__" + VALUE_NAME);
    assert a == (column + "__") + VALUE_NAME;
    assert COLUMN_VALUE_BRACES[0] == '{' && VALUE_NAME[0] == '<';
    OneReplaced(column + "__", VALUE_NAME, COLUMN_VALUE_BRACES, column);
    OneReplaced(column + "__", VALUE_NAME, VALUE_NAME, ValueName(value));
    var c := column + "__" + ValueName(value);
    NothingWithoutBrackets(c, VALUE_NAME_BRACES, ValueName(value));
    NothingWithoutBrackets(c, AGG, value.aggregation);
    NothingWithoutBrackets(c, AGG_BRACES, value.aggregation);
    assert c[|column|] == '_' && '_' in c;
  }

  lemma FirstReplaced(pattern: string, behind: string, text: string)
    requires pattern != ""
    ensures Replace(pattern + behind, pattern, text) == text + Replace(behind, pattern, text)
  {
    assert (pattern + behind)[..|pattern|] == pattern && (pattern + behind)[|pattern|..] == behind;
  }
}
