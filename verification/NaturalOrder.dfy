/** Sorting names so that `lan2` comes before `lan11`. */
module NaturalOrder {
  import opened Texts
  import opened Wrappers

  // ---------------------------------------------------------------- the key

  datatype Part = Word(text: string) | Number(value: nat)

  function LowerChar(c: char): char {
    if 'A' <= c <= 'Z' then c + ' ' else c
  }

  /** `lower` on ASCII text */
  function Lower(s: string): string {
    seq(|s|, i requires 0 <= i < |s| => LowerChar(s[i]))
  }

  /** How many characters at the front are (or are not) digits. */
  function Run(s: string, digits: bool): (n: nat)
    ensures n <= |s| && (forall i | 0 <= i < n :: IsDigit(s[i]) == digits) && (n < |s| ==> IsDigit(s[n]) != digits)
  {
    if s == "" || IsDigit(s[0]) != digits then 0 else 1 + Run(s[1..], digits)
  }

  /** `re.split` at the digit runs, the runs kept and turned into numbers. */
  function Key(s: string): seq<Part>
    decreases |s|
  {
    var n := Run(s, false);
    if n == |s| then [Word(Lower(s))]
    else
      var d := Run(s[n..], true);
      [Word(Lower(s[..n])), Number(DigitsValue(s[n..n + d]))] + Key(s[n + d..])
  }

  /** Words and numbers take turns, a word at both ends. */
  lemma {:induction false} KeyAlternates(s: string)
    ensures Alternates(Key(s))
    decreases |s|
  {
    var n := Run(s, false);
    if n < |s| {
      var d := Run(s[n..], true);
      var rest := s[n + d..];
      KeyAlternates(rest);
      TwoMore(Word(Lower(s[..n])), Number(DigitsValue(s[n..n + d])), Key(rest));
    }
  }

  predicate Alternates(k: seq<Part>) {
    |k| % 2 == 1 && forall i | 0 <= i < |k| :: k[i].Word? <==> i % 2 == 0
  }

  lemma TwoMore(w: Part, n: Part, k: seq<Part>)
    requires w.Word? && n.Number? && Alternates(k)
    ensures Alternates([w, n] + k)
  {
  }

  // ---------------------------------------------------------------- the order

  /** `a <= b` on texts */
  predicate WordLeq(a: string, b: string) {
    a == "" || (b != "" && (a[0] < b[0] || (a[0] == b[0] && WordLeq(a[1..], b[1..]))))
  }

  /** `a <= b` on parts; comparing a word with a number is a TypeError. */
  predicate PartLeq(a: Part, b: Part)
    requires a.Word? == b.Word?
  {
    match a
    case Word(t) => WordLeq(t, b.text)
    case Number(n) => n <= b.value
  }

  /** Keys that can be compared: same kind at every place. */
  predicate Comparable(a: seq<Part>, b: seq<Part>) {
    forall i | 0 <= i < |a| && i < |b| :: a[i].Word? == b[i].Word?
  }

  /** `a <= b` on lists: the first difference decides. */
  predicate KeyLeq(a: seq<Part>, b: seq<Part>)
    requires Comparable(a, b)
  {
    a == [] || (b != [] && if a[0] == b[0] then KeyLeq(a[1..], b[1..]) else PartLeq(a[0], b[0]))
  }

  /** No comparison of two names mixes a word with a number. */
  lemma NamesComparable(s: string, t: string)
    ensures Comparable(Key(s), Key(t))
  {
    KeyAlternates(s);
    KeyAlternates(t);
    hide Key;
  }

  predicate Leq(s: string, t: string) {
    NamesComparable(s, t);
    KeyLeq(Key(s), Key(t))
  }

  lemma {:induction false} WordOrder(a: string, b: string, c: string)
    ensures WordLeq(a, a)
    ensures WordLeq(a, b) || WordLeq(b, a)
    ensures WordLeq(a, b) && WordLeq(b, a) ==> a == b
    ensures WordLeq(a, b) && WordLeq(b, c) ==> WordLeq(a, c)
  {
    if a != "" {
      var b', c' := if b == "" then "" else b[1..], if c == "" then "" else c[1..];
      WordOrder(a[1..], b', c');
      assert a == [a[0]] + a[1..];
      assert b != "" ==> b == [b[0]] + b[1..];
    }
  }

  lemma {:induction false} KeyOrder(a: seq<Part>, b: seq<Part>, c: seq<Part>)
    requires Comparable(a, b) && Comparable(b, a) && Comparable(b, c) && Comparable(a, c) && Comparable(a, a)
    ensures KeyLeq(a, a)
    ensures KeyLeq(a, b) || KeyLeq(b, a)
    ensures KeyLeq(a, b) && KeyLeq(b, c) ==> KeyLeq(a, c)
    decreases |a|
  {
    if a != [] {
      var b', c' := if b == [] then [] else b[1..], if c == [] then [] else c[1..];
      KeyOrder(a[1..], b', c');
      if b != [] {
        PartOrder(a[0], b[0], if c == [] then b[0] else c[0]);
      }
    }
  }

  lemma PartOrder(a: Part, b: Part, c: Part)
    requires a.Word? == b.Word? && b.Word? == c.Word?
    ensures PartLeq(a, b) || PartLeq(b, a)
    ensures PartLeq(a, b) && PartLeq(b, a) ==> a == b
    ensures PartLeq(a, b) && PartLeq(b, c) ==> PartLeq(a, c)
  {
    if a.Word? { WordOrder(a.text, b.text, c.text); }
  }

  /** Names are in a total preorder. */
  lemma NaturalOrderIsTotal(s: string, t: string, u: string)
    ensures Leq(s, s)
    ensures Leq(s, t) || Leq(t, s)
    ensures Leq(s, t) && Leq(t, u) ==> Leq(s, u)
  {
    NamesComparable(s, t);
    NamesComparable(t, s);
    NamesComparable(t, u);
    NamesComparable(s, u);
    NamesComparable(s, s);
    hide Key;
    KeyOrder(Key(s), Key(t), Key(u));
  }

  // ---------------------------------------------------------------- numbered names

  lemma {:induction false} RunOfJoined(w: string, rest: string, digits: bool)
    requires forall i | 0 <= i < |w| :: IsDigit(w[i]) == digits
    requires rest != "" ==> IsDigit(rest[0]) != digits
    ensures Run(w + rest, digits) == |w|
  {
    if w == "" {
      assert w + rest == rest;
    } else {
      assert (w + rest)[1..] == w[1..] + rest;
      RunOfJoined(w[1..], rest, digits);
    }
  }

  predicate NoDigits(s: string) {
    forall i | 0 <= i < |s| :: !IsDigit(s[i])
  }

  lemma KeyOfParts(w: string, d: string, rest: string)
    requires NoDigits(w) && d != "" && AllDigits(d) && (rest != "" ==> !IsDigit(rest[0]))
    ensures Key(w + (d + rest)) == [Word(Lower(w)), Number(DigitsValue(d))] + Key(rest)
  {
    RunOfJoined(w, d + rest, false);
    RunOfJoined(d, rest, true);
    Cut(w, d + rest);
    Cut(d, rest);
    assert w + (d + rest) == (w + d) + rest;
    Cut(w + d, rest);
    Cut(w, d);
    assert (w + (d + rest))[|w|..|w| + |d|] == d;
    hide Run, Lower, DigitsValue;
  }

  /** A name is a word, or a word, a digit run and the rest. */
  lemma Apart(s: string) returns (w: string, d: string, rest: string)
    ensures NoDigits(w) && AllDigits(d) && s == w + (d + rest) && (rest != "" ==> !IsDigit(rest[0]))
    ensures d == "" ==> rest == ""
  {
    var n := Run(s, false);
    w := s[..n];
    var tail := s[n..];
    assert s == w + tail;
    var k := Run(tail, true);
    d, rest := tail[..k], tail[k..];
    assert tail == d + rest;
    hide Run;
  }

  /** A number behind a prefix that ends in no digit is one part of its own. */
  lemma {:induction false} KeyOfNumbered(p: string, d: string)
    requires p == "" || !IsDigit(p[|p| - 1])
    requires d != "" && AllDigits(d)
    ensures Key(p + d) == Key(p) + [Number(DigitsValue(d)), Word("")]
    decreases |p|
  {
    var w, e, rest := Apart(p);
    if e == "" {
      KeyOfWord(p, w, d);
    } else {
      hide Key, DigitsValue;
      EndsInRun(w, e);
      assert rest[|rest| - 1] == p[|p| - 1];
      KeyOfNumbered(rest, d);
      KeyOfLonger(w, e, rest, d, [Number(DigitsValue(d)), Word("")]);
    }
  }

  lemma KeyOfLonger(w: string, e: string, rest: string, d: string, end: seq<Part>)
    requires NoDigits(w) && e != "" && AllDigits(e) && rest != "" && !IsDigit(rest[0])
    requires Key(rest + d) == Key(rest) + end
    ensures Key(w + (e + rest) + d) == Key(w + (e + rest)) + end
  {
    hide Key, DigitsValue, Lower;
    KeyOfParts(w, e, rest);
    KeyOfParts(w, e, rest + d);
    Regroup(w, e, rest, d);
  }

  lemma EndsInRun(w: string, e: string)
    requires e != "" && AllDigits(e)
    ensures var p := w + (e + ""); IsDigit(p[|p| - 1])
  {
  }

  lemma Regroup(w: string, e: string, rest: string, d: string)
    ensures (w + (e + rest)) + d == w + (e + (rest + d))
  {
  }

  lemma KeyOfWord(p: string, w: string, d: string)
    requires NoDigits(w) && p == w + ("" + "") && d != "" && AllDigits(d)
    ensures Key(p + d) == Key(p) + [Number(DigitsValue(d)), Word("")]
  {
    assert p == w && Key("") == [Word(Lower(""))] && Lower("") == "";
    KeyOfParts(w, d, "");
    assert w + (d + "") == p + d;
    RunOfJoined(w, "", false);
    assert w + "" == w;
    assert Key(p) == [Word(Lower(p))];
  }

  lemma {:induction false} SamePrefix(k: seq<Part>, a: seq<Part>, b: seq<Part>)
    requires Comparable(k + a, k + b) && Comparable(a, b)
    ensures KeyLeq(k + a, k + b) == KeyLeq(a, b)
    decreases |k|
  {
    if k == [] {
      assert k + a == a && k + b == b;
    } else {
      assert (k + a)[1..] == k[1..] + a && (k + b)[1..] == k[1..] + b;
      SamePrefix(k[1..], a, b);
    }
  }

  /** `lan2` before `lan11`: behind a common prefix the numbers decide. */
  lemma NumbersDecide(p: string, m: nat, n: nat)
    requires p == "" || !IsDigit(p[|p| - 1])
    ensures Leq(p + Decimal(m), p + Decimal(n)) <==> m <= n
  {
    hide Key, Decimal, DigitsValue;
    var s, t := p + Decimal(m), p + Decimal(n);
    KeyOfNumbered(p, Decimal(m));
    KeyOfNumbered(p, Decimal(n));
    DecimalReadsBack(m);
    DecimalReadsBack(n);
    NamesComparable(s, t);
    SamePrefix(Key(p), [Number(m), Word("")], [Number(n), Word("")]);
    NumberFirst(m, n);
  }

  lemma NumberFirst(m: nat, n: nat)
    ensures KeyLeq([Number(m), Word("")], [Number(n), Word("")]) <==> m <= n
  {
    assert [Number(m), Word("")][1..] == [Word("")] && [Number(n), Word("")][1..] == [Word("")];
    assert [Word("")][1..] == [];
  }

  // ---------------------------------------------------------------- sorting

  function Insert(s: string, sorted: seq<string>): seq<string> {
    if sorted == [] then [s]
    else if Leq(s, sorted[0]) then [s] + sorted
    else [sorted[0]] + Insert(s, sorted[1..])
  }

  /** `sort_by_natural_order`: what a stable sort gives. */
  function Sorted(items: seq<string>): seq<string> {
    if items == [] then [] else Insert(items[0], Sorted(items[1..]))
  }

  predicate Ordered(items: seq<string>) {
    forall i, j | 0 <= i < j < |items| :: Leq(items[i], items[j])
  }

  lemma {:induction false} InsertKeeps(s: string, sorted: seq<string>)
    ensures multiset(Insert(s, sorted)) == multiset([s]) + multiset(sorted)
  {
    hide Leq;
    if sorted != [] {
      InsertKeeps(s, sorted[1..]);
      assert sorted == [sorted[0]] + sorted[1..];
    }
  }

  lemma {:induction false} InsertOrders(s: string, sorted: seq<string>)
    requires Ordered(sorted)
    ensures Ordered(Insert(s, sorted))
  {
    hide Leq;
    if sorted != [] {
      var first, rest := sorted[0], sorted[1..];
      if Leq(s, first) {
        forall j | 0 <= j < |sorted| ensures Leq(s, sorted[j]) { NaturalOrderIsTotal(s, first, sorted[j]); }
      } else {
        NaturalOrderIsTotal(s, first, s);
        InsertOrders(s, rest);
        InsertKeeps(s, rest);
        var r := Insert(s, rest);
        forall j | 0 <= j < |r| ensures Leq(first, r[j]) {
          assert r[j] in multiset(r);
          if r[j] != s { assert r[j] in rest; }
        }
      }
    }
  }

  function Alike(items: seq<string>, name: string): seq<string> {
    if items == [] then []
    else (if Key(items[0]) == Key(name) then [items[0]] else []) + Alike(items[1..], name)
  }

  /** The result is the list in another order, it is ordered, and names that compare equal keep
      their places among themselves. */
  lemma {:induction false} SortedIsSound(items: seq<string>)
    ensures multiset(Sorted(items)) == multiset(items)
    ensures Ordered(Sorted(items))
  {
    if items != [] {
      SortedIsSound(items[1..]);
      InsertKeeps(items[0], Sorted(items[1..]));
      InsertOrders(items[0], Sorted(items[1..]));
      assert items == [items[0]] + items[1..];
    }
  }

  lemma {:induction false} InsertStable(s: string, sorted: seq<string>, name: string)
    ensures Alike(Insert(s, sorted), name) == Alike([s] + sorted, name)
  {
    hide Key;
    if sorted != [] && !Leq(s, sorted[0]) {
      var first, rest := sorted[0], sorted[1..];
      InsertStable(s, rest, name);
      NaturalOrderIsTotal(s, first, s);
      SameKeyLeq(s, first);
      hide Leq;
      assert Insert(s, sorted)[1..] == Insert(s, rest);
      assert ([s] + sorted)[1..] == sorted && ([s] + rest)[1..] == rest;
    } else {
      assert Insert(s, sorted) == [s] + sorted;
    }
  }

  lemma SameKeyLeq(s: string, t: string)
    ensures Key(s) == Key(t) ==> Leq(s, t)
  {
    NaturalOrderIsTotal(s, s, s);
    hide Key;
  }

  lemma {:induction false} SortIsStable(items: seq<string>, name: string)
    ensures Alike(Sorted(items), name) == Alike(items, name)
  {
    hide Key;
    if items != [] {
      var rest := Sorted(items[1..]);
      SortIsStable(items[1..], name);
      InsertStable(items[0], rest, name);
      assert ([items[0]] + rest)[1..] == rest;
    }
  }
}
