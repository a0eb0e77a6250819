/** Text the way Python handles it: decimal numbers, splitting, and a fingerprint for literals. */
module Texts {
  import opened Wrappers

  // ---------------------------------------------------------------- telling literals apart

  ghost function CodeAt(s: string, i: int): int {
    if 0 <= i < |s| then s[i] as int else 0
  }

  /** Length and four of the characters as one number.  Two literals with
      different fingerprints differ, and the verifier sees that without comparing characters. */
  ghost function Fingerprint(s: string): int {
    |s| + 100 * CodeAt(s, 0) + 100_000 * CodeAt(s, 1) + 100_000_000 * CodeAt(s, |s| - 3) + 100_000_000_000 * CodeAt(s, 12)
  }

  // ---------------------------------------------------------------- decimal numbers

  function Digit(d: nat): char
    requires d < 10
  {
    '0' + d as char
  }

  predicate IsDigit(c: char) {
    '0' <= c <= '9'
  }

  predicate AllDigits(s: string) {
    forall i | 0 <= i < |s| :: IsDigit(s[i])
  }

  /** `str(n)` */
  function Decimal(n: nat): (s: string)
    ensures s != "" && AllDigits(s)
  {
    if n < 10 then [Digit(n)] else Decimal(n / 10) + [Digit(n % 10)]
  }

  function DigitsValue(s: string): nat
    requires AllDigits(s)
  {
    if s == "" then 0 else 10 * DigitsValue(s[..|s| - 1]) + (s[|s| - 1] as nat - '0' as nat)
  }

  /** `int(s)` for the texts this program stores; None is the ValueError. */
  function Int(s: string): Option<nat> {
    if s != "" && AllDigits(s) then Some(DigitsValue(s)) else None
  }

  lemma {:induction false} DecimalReadsBack(n: nat)
    ensures Int(Decimal(n)) == Some(n)
  {
    var s := Decimal(n);
    var front := s[..|s| - 1];
    assert s[|s| - 1] == Digit(n % 10);
    if n < 10 {
      assert front == "";
    } else {
      DecimalReadsBack(n / 10);
      assert front == Decimal(n / 10);
    }
    assert DigitsValue(s) == 10 * DigitsValue(front) + n % 10;
  }

  lemma DigitsOnly(s: string, c: char)
    requires AllDigits(s) && !IsDigit(c)
    ensures c !in s
  {
    forall i | 0 <= i < |s| ensures s[i] != c {
      assert IsDigit(s[i]);
    }
  }

  /** A number has one spelling without leading zeros. */
  lemma {:induction false} OneSpelling(s: string)
    requires s != "" && AllDigits(s) && (s[0] != '0' || |s| == 1)
    ensures s == Decimal(DigitsValue(s))
    ensures |s| > 1 ==> DigitsValue(s) > 0
  {
    var front := s[..|s| - 1];
    var d := s[|s| - 1] as nat - '0' as nat;
    assert s == front + [s[|s| - 1]];
    assert DigitsValue(s) == 10 * DigitsValue(front) + d;
    if front == "" {
      assert DigitsValue(front) == 0;
    } else {
      OneSpelling(front);
      if |front| == 1 { assert front[0] != '0' && DigitsValue(front[..0]) == 0; }
      hide DigitsValue;
      var n := DigitsValue(front);
      assert n > 0 && (10 * n + d) / 10 == n && (10 * n + d) % 10 == d;
    }
  }

  /** How many digits a number needs. */
  lemma ShortNumbers(n: nat)
    requires n < 256
    ensures |Decimal(n)| <= 3 && (Decimal(n)[0] == '0' ==> n == 0)
  {
    if 10 <= n < 100 {
      assert Decimal(n / 10) == [Digit(n / 10)];
    } else if 100 <= n {
      assert Decimal(n / 100) == [Digit(n / 100)];
      assert Decimal(n / 10) == Decimal(n / 100) + [Digit(n / 10 % 10)];
    }
  }

  // ---------------------------------------------------------------- splitting

  /** `s.split(sep, maxsplit=1)[0]` */
  function BeforeFirst(s: string, sep: char): (r: string)
    ensures sep !in r
    ensures sep !in s ==> r == s
  {
    if s == "" || s[0] == sep then "" else [s[0]] + BeforeFirst(s[1..], sep)
  }

  /** `s.rsplit(sep)[-1]` */
  function AfterLast(s: string, sep: char): (r: string)
    ensures sep !in r
    ensures sep !in s ==> r == s
  {
    if s == "" || s[|s| - 1] == sep then "" else AfterLast(s[..|s| - 1], sep) + [s[|s| - 1]]
  }

  lemma {:induction false} AfterLastOfTail(head: string, sep: char, tail: string)
    requires sep !in tail
    ensures AfterLast(head + [sep] + tail, sep) == tail
  {
    var s := head + [sep] + tail;
    if tail != "" {
      var front := tail[..|tail| - 1];
      assert s[..|s| - 1] == head + [sep] + front;
      AfterLastOfTail(head, sep, front);
      assert tail == front + [tail[|tail| - 1]];
    }
  }

  /** `s.split(sep)`: always at least one piece, and no piece holds the separator. */
  function Split(s: string, sep: char): (r: seq<string>)
    ensures r != [] && forall p | p in r :: sep !in p
    decreases |s|
  {
    var w := BeforeFirst(s, sep);
    if |w| >= |s| then [w] else [w] + Split(s[|w| + 1..], sep)
  }

  /** `sep.join(pieces)` */
  function Join(pieces: seq<string>, sep: char): string {
    if pieces == [] then ""
    else if |pieces| == 1 then pieces[0]
    else pieces[0] + [sep] + Join(pieces[1..], sep)
  }

  lemma {:induction false} BeforeFirstOfJoin(w: string, sep: char, rest: string)
    requires sep !in w
    ensures BeforeFirst(w + [sep] + rest, sep) == w
  {
    if w != "" {
      assert (w + [sep] + rest)[1..] == w[1..] + [sep] + rest;
      BeforeFirstOfJoin(w[1..], sep, rest);
    }
  }

  /** The text from the first separator on starts with it. */
  lemma {:induction false} BeforeFirstStops(s: string, sep: char)
    ensures var w := BeforeFirst(s, sep); |w| <= |s| && s[..|w|] == w && (|w| < |s| ==> s[|w|] == sep)
  {
    if s != "" && s[0] != sep { BeforeFirstStops(s[1..], sep); }
  }

  lemma {:induction false} JoinUndoesSplit(s: string, sep: char)
    ensures Join(Split(s, sep), sep) == s
    decreases |s|
  {
    var w := BeforeFirst(s, sep);
    BeforeFirstStops(s, sep);
    hide BeforeFirst;
    if |w| < |s| {
      var rest := s[|w| + 1..];
      JoinUndoesSplit(rest, sep);
      assert Split(s, sep) == [w] + Split(rest, sep);
      assert s == w + [sep] + rest;
      hide Split;
      JoinFirst(w, Split(rest, sep), sep);
    }
  }

  lemma JoinFirst(w: string, pieces: seq<string>, sep: char)
    requires pieces != []
    ensures Join([w] + pieces, sep) == w + [sep] + Join(pieces, sep)
  {
    CutFirst(w, pieces);
  }

  /** Cutting at a separator cuts both sides on their own. */
  lemma SplitFirst(w: string, sep: char, rest: string)
    requires sep !in w
    ensures Split(w + [sep] + rest, sep) == [w] + Split(rest, sep)
  {
    var s := w + [sep] + rest;
    BeforeFirstOfJoin(w, sep, rest);
    assert s[|w| + 1..] == rest;
  }

  lemma {:induction false} SplitApart(a: string, sep: char, b: string)
    ensures Split(a + [sep] + b, sep) == Split(a, sep) + Split(b, sep)
    decreases |a|
  {
    var w := BeforeFirst(a, sep);
    BeforeFirstStops(a, sep);
    if |w| == |a| {
      hide BeforeFirst;
      assert Split(a, sep) == [a];
      SplitFirst(a, sep, b);
    } else {
      hide Split, BeforeFirst;
      var rest := a[|w| + 1..];
      SplitApart(rest, sep, b);
      SplitFirst(w, sep, rest);
      SplitFirst(w, sep, rest + [sep] + b);
      assert a == w + [sep] + rest;
      CutLater(w, [sep], rest, b);
      Associate([w], Split(rest, sep), Split(b, sep));
    }
  }

  lemma CutLater(w: string, sep: string, rest: string, b: string)
    ensures (w + sep + rest) + sep + b == w + sep + (rest + sep + b)
  {
  }

  lemma Associate<T>(a: seq<T>, b: seq<T>, c: seq<T>)
    ensures a + b + c == a + (b + c)
  {
  }

  lemma SplitWhole(s: string, sep: char)
    requires sep !in s
    ensures Split(s, sep) == [s]
  {
  }

  lemma {:induction false} SplitUndoesJoin(pieces: seq<string>, sep: char)
    requires pieces != [] && forall p | p in pieces :: sep !in p
    ensures Split(Join(pieces, sep), sep) == pieces
  {
    hide Split;
    SplitWhole(pieces[0], sep);
    if |pieces| > 1 {
      SplitApart(pieces[0], sep, Join(pieces[1..], sep));
      SplitUndoesJoin(pieces[1..], sep);
      assert pieces == [pieces[0]] + pieces[1..];
    }
  }

  /** A text that comes in two pieces was joined from exactly these. */
  lemma TwoPieces(a: string, sep: char, b: string)
    requires |Split(Join([a, b], sep), sep)| == 2
    ensures Split(Join([a, b], sep), sep) == [a, b]
  {
    SplitApart(a, sep, b);
    assert Join([a, b], sep) == a + [sep] + b;
    JoinUndoesSplit(a, sep);
    JoinUndoesSplit(b, sep);
  }

  /** `[e for e in s.split(" ") if e]` */
  function Words(s: string): seq<string>
    decreases |s|
  {
    if s == "" then []
    else
      var w := BeforeFirst(s, ' ');
      if w == "" then Words(s[1..])
      else if |w| >= |s| then [w]
      else [w] + Words(s[|w|..])
  }

  function Reversed<T>(s: seq<T>): (r: seq<T>)
    ensures |r| == |s|
  {
    if s == [] then [] else Reversed(s[1..]) + [s[0]]
  }
}
