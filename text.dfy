/**
  String operations of the source languages, stated on `seq<char>`:
  Python's `str.strip` and `str.isspace`, `str.splitlines`, `str.split` on one
  character, substring search (`in` / `includes`), joining, lower-casing and
  the two `_truncate` helpers.
*/
module Text {

  /** Python's `str.isspace` for one character. */
  predicate IsSpace(c: char) {
    || ('\U{9}' <= c <= '\U{D}')
    || ('\U{1C}' <= c <= ' ')
    || c == '\U{85}' || c == '\U{A0}' || c == '\U{1680}'
    || ('\U{2000}' <= c <= '\U{200A}')
    || c == '\U{2028}' || c == '\U{2029}' || c == '\U{202F}' || c == '\U{205F}' || c == '\U{3000}'
  }

  /** The characters at which Python's `str.splitlines` breaks a line ("\r\n" counts as one break). */
  predicate IsLineBreak(c: char) {
    c == '\n' || c == '\r' || c == '\U{B}' || c == '\U{C}'
    || ('\U{1C}' <= c <= '\U{1E}') || c == '\U{85}' || c == '\U{2028}' || c == '\U{2029}'
  }

  /** `s` without its leading characters that satisfy `drop`. */
  function TrimLeft(s: string, drop: char -> bool): (r: string)
    ensures |r| <= |s| && r == s[|s| - |r|..]
  {
    if s != [] && drop(s[0]) then TrimLeft(s[1..], drop) else s
  }

  /** `s` without its trailing characters that satisfy `drop`. */
  function TrimRight(s: string, drop: char -> bool): (r: string)
    ensures |r| <= |s| && r == s[..|r|]
  {
    if s != [] && drop(s[|s| - 1]) then TrimRight(s[..|s| - 1], drop) else s
  }

  /** What `TrimLeft` keeps does not start with a `drop` character. */
  lemma {:induction false} TrimLeftStops(s: string, drop: char -> bool)
    ensures TrimLeft(s, drop) == [] || !drop(TrimLeft(s, drop)[0])
  {
    if s != [] && drop(s[0]) {
      TrimLeftStops(s[1..], drop);
    }
  }

  /** Every character `TrimLeft` removes satisfies `drop`. */
  lemma {:induction false} TrimLeftDropped(s: string, drop: char -> bool, k: nat)
    requires k < |s| - |TrimLeft(s, drop)|
    ensures drop(s[k])
  {
    if k > 0 {
      assert s != [] && drop(s[0]);
      TrimLeftDropped(s[1..], drop, k - 1);
      assert s[1..][k - 1] == s[k];
    }
  }

  /** What `TrimRight` keeps does not end with a `drop` character. */
  lemma {:induction false} TrimRightStops(s: string, drop: char -> bool)
    ensures TrimRight(s, drop) == [] || !drop(TrimRight(s, drop)[|TrimRight(s, drop)| - 1])
  {
    if s != [] && drop(s[|s| - 1]) {
      TrimRightStops(s[..|s| - 1], drop);
    }
  }

  /** Every character `TrimRight` removes satisfies `drop`. */
  lemma {:induction false} TrimRightDropped(s: string, drop: char -> bool, k: nat)
    requires |TrimRight(s, drop)| <= k < |s|
    ensures drop(s[k])
  {
    if k < |s| - 1 {
      assert s != [] && drop(s[|s| - 1]);
      TrimRightDropped(s[..|s| - 1], drop, k);
      assert s[..|s| - 1][k] == s[k];
    }
  }

  /** Python's `str.strip()` with no argument. */
  function Strip(s: string): string {
    TrimLeft(TrimRight(s, IsSpace), IsSpace)
  }

  /** What `Strip` keeps is the slice of `s` between its leading and its trailing whitespace. */
  lemma StripIsSlice(s: string)
    ensures var j := |TrimRight(s, IsSpace)|; var i := j - |Strip(s)|;
            0 <= i <= j <= |s| && Strip(s) == s[i..j]
  {
    var t := TrimRight(s, IsSpace);
    var r := TrimLeft(t, IsSpace);
    assert r == t[|t| - |r|..];
    assert t == s[..|t|];
  }

  /** Everything before what `Strip` keeps is whitespace. */
  lemma StripLeading(s: string, k: nat)
    requires k < |TrimRight(s, IsSpace)| - |Strip(s)|
    ensures IsSpace(s[k])
  {
    var t := TrimRight(s, IsSpace);
    TrimLeftDropped(t, IsSpace, k);
    assert s[k] == t[k];
  }

  /** Everything after what `Strip` keeps is whitespace. */
  lemma StripTrailing(s: string, k: nat)
    requires |TrimRight(s, IsSpace)| <= k < |s|
    ensures IsSpace(s[k])
  {
    TrimRightDropped(s, IsSpace, k);
  }

  /** What `Strip` keeps neither starts nor ends with whitespace. */
  lemma StripEnds(s: string)
    ensures Strip(s) == [] || (!IsSpace(Strip(s)[0]) && !IsSpace(Strip(s)[|Strip(s)| - 1]))
  {
    var t := TrimRight(s, IsSpace);
    var r := TrimLeft(t, IsSpace);
    TrimLeftStops(t, IsSpace);
    TrimRightStops(s, IsSpace);
    if r != [] {
      assert r == t[|t| - |r|..];
      assert r[|r| - 1] == t[|t| - 1];
    }
  }

  /** A text that neither starts nor ends with whitespace is its own `Strip`. */
  lemma StripUnchanged(s: string)
    requires s == [] || (!IsSpace(s[0]) && !IsSpace(s[|s| - 1]))
    ensures Strip(s) == s
  {
    assert TrimRight(s, IsSpace) == s;
    assert TrimLeft(s, IsSpace) == s;
  }

  /** Python's `str.rstrip(c)` for one character `c`: a prefix of `s` that does not end in `c`. */
  function RStripChar(s: string, c: char): (r: string)
    ensures |r| <= |s| && r == s[..|r|]
    ensures r == [] || r[|r| - 1] != c
  {
    if s != [] && s[|s| - 1] == c then RStripChar(s[..|s| - 1], c) else s
  }

  /** Every character `RStripChar` removes is `c`. */
  lemma {:induction false} RStripCharDropped(s: string, c: char, k: nat)
    requires |RStripChar(s, c)| <= k < |s|
    ensures s[k] == c
  {
    if k < |s| - 1 {
      assert s != [] && s[|s| - 1] == c;
      RStripCharDropped(s[..|s| - 1], c, k);
      assert s[..|s| - 1][k] == s[k];
    }
  }

  /** ASCII lower-casing (Python `str.lower`, JavaScript `toLowerCase`). */
  function LowerChar(c: char): char {
    if 'A' <= c <= 'Z' then (c as int + 32) as char else c
  }

  function Lower(s: string): (r: string)
    ensures |r| == |s| && forall i :: 0 <= i < |s| ==> r[i] == LowerChar(s[i])
  {
    if s == [] then [] else [LowerChar(s[0])] + Lower(s[1..])
  }

  /** Python `needle in hay`, JavaScript `hay.includes(needle)`. */
  predicate Contains(hay: string, needle: string) {
    exists i :: 0 <= i <= |hay| - |needle| && needle <= hay[i..]
  }

  function Join(parts: seq<string>, sep: string): string {
    if parts == [] then ""
    else if |parts| == 1 then parts[0]
    else parts[0] + sep + Join(parts[1..], sep)
  }

  lemma JoinAppend(parts: seq<string>, x: string, sep: string)
    ensures Join(parts + [x], sep) == if parts == [] then x else Join(parts, sep) + sep + x
  {
    if |parts| > 1 {
      assert (parts + [x])[1..] == parts[1..] + [x];
      JoinAppend(parts[1..], x, sep);
    } else if |parts| == 1 {
      assert (parts + [x])[1..] == [x];
    }
  }

  /** The position of the first `c` in `s`, or -1 (Python `str.find` for one character). */
  function Find(s: string, c: char): (k: int)
    ensures -1 <= k < |s|
    ensures k >= 0 ==> s[k] == c
  {
    if s == [] then -1
    else if s[0] == c then 0
    else var k := Find(s[1..], c); if k == -1 then -1 else k + 1
  }

  /** `Find` gives -1 exactly when `c` is absent, and otherwise the first occurrence. */
  lemma {:induction false} FindSpec(s: string, c: char)
    ensures Find(s, c) == -1 <==> c !in s
    ensures Find(s, c) >= 0 ==> c !in s[..Find(s, c)]
  {
    if s != [] && s[0] != c {
      FindSpec(s[1..], c);
      assert s == [s[0]] + s[1..];
      if Find(s[1..], c) >= 0 {
        assert s[..Find(s, c)] == [s[0]] + s[1..][..Find(s[1..], c)];
      }
    }
  }

  /** Python `s.split(sep)` for a single-character separator. */
  function Split(s: string, sep: char): (r: seq<string>)
    ensures |r| >= 1
    decreases |s|
  {
    var k := Find(s, sep);
    if k == -1 then [s] else [s[..k]] + Split(s[k + 1..], sep)
  }

  /** Splitting on `sep` and joining with `sep` gives the string back. */
  lemma {:induction false} JoinSplit(s: string, sep: char)
    ensures Join(Split(s, sep), [sep]) == s
    decreases |s|
  {
    var k := Find(s, sep);
    if k != -1 {
      var rest := s[k + 1..];
      JoinSplit(rest, sep);
      SplitAt(s, sep, k);
      JoinCons(s[..k], Split(rest, sep), [sep]);
      SliceAround(s, k);
    }
  }

  lemma SplitAt(s: string, sep: char, k: int)
    requires 0 <= k < |s| && k == Find(s, sep)
    ensures Split(s, sep) == [s[..k]] + Split(s[k + 1..], sep)
  {
  }

  lemma SliceAround(s: string, k: int)
    requires 0 <= k < |s|
    ensures s == s[..k] + [s[k]] + s[k + 1..]
  {
    assert s[k..] == [s[k]] + s[k + 1..];
    assert s == s[..k] + s[k..];
  }

  /** A joined text starts with its first part. */
  lemma JoinHead(parts: seq<string>, sep: string)
    requires parts != []
    ensures |Join(parts, sep)| >= |parts[0]| && Join(parts, sep)[..|parts[0]|] == parts[0]
  {
  }

  lemma JoinCons(head: string, tail: seq<string>, sep: string)
    requires tail != []
    ensures Join([head] + tail, sep) == head + sep + Join(tail, sep)
  {
    assert ([head] + tail)[1..] == tail;
  }

  /** Python `s.replace(a, b)` for single characters. */
  function ReplaceChar(s: string, a: char, b: char): (r: string)
    ensures |r| == |s|
    ensures forall i :: 0 <= i < |s| ==> r[i] == if s[i] == a then b else s[i]
  {
    if s == [] then [] else [if s[0] == a then b else s[0]] + ReplaceChar(s[1..], a, b)
  }

  function DigitChar(d: nat): char
    requires d < 10
  {
    ('0' as int + d) as char
  }

  /** Python `str(n)` / JavaScript `String(n)` for a non-negative integer. */
  function NatToString(n: nat): (r: string)
    ensures |r| >= 1
    ensures forall i :: 0 <= i < |r| ==> '0' <= r[i] <= '9'
  {
    if n < 10 then [DigitChar(n)] else NatToString(n / 10) + [DigitChar(n % 10)]
  }

  function IntToString(i: int): string {
    if i < 0 then "-" + NatToString(-i) else NatToString(i)
  }

  function Digits(s: string): (n: nat)
    requires forall i :: 0 <= i < |s| ==> '0' <= s[i] <= '9'
  {
    if s == [] then 0 else 10 * Digits(s[..|s| - 1]) + (s[|s| - 1] as int - '0' as int)
  }

  /** Reading back a rendered number gives the number. */
  lemma {:induction false} DigitsOfNatToString(n: nat)
    ensures Digits(NatToString(n)) == n
  {
    if n >= 10 {
      var r := NatToString(n);
      assert r[..|r| - 1] == NatToString(n / 10);
      DigitsOfNatToString(n / 10);
    }
  }

  /**
    The `_truncate` helper (the same code in compact.py and tasks_compact.py):
    the text itself when it fits, otherwise all but the last allowed character
    followed by an ellipsis. With `maxLen == 0` Python's slice `text[:-1]` drops the
    last character; no caller passes 0.
  */
  function Truncate(text: string, maxLen: nat): string {
    if |text| <= maxLen then text
    else if maxLen == 0 then text[..|text| - 1] + "\U{2026}"
    else text[..maxLen - 1] + "\U{2026}"
  }

  lemma TruncateSpec(text: string, maxLen: nat)
    requires maxLen >= 1
    ensures |text| <= maxLen ==> Truncate(text, maxLen) == text
    ensures |text| > maxLen ==>
              |Truncate(text, maxLen)| == maxLen && Truncate(text, maxLen) == text[..maxLen - 1] + "\U{2026}"
    ensures |Truncate(text, maxLen)| <= maxLen
  {
  }

  /** Lexicographic order of code points: Python's `<=` on `str`. */
  predicate StrLe(a: string, b: string)
    decreases |a|
  {
    if a == [] then true
    else if b == [] then false
    else if a[0] != b[0] then a[0] < b[0]
    else StrLe(a[1..], b[1..])
  }

  lemma {:induction false} StrLeTotal(a: string, b: string)
    ensures StrLe(a, b) || StrLe(b, a)
    decreases |a|
  {
    if a != [] && b != [] && a[0] == b[0] {
      StrLeTotal(a[1..], b[1..]);
    }
  }

  lemma {:induction false} StrLeTransitive(a: string, b: string, c: string)
    requires StrLe(a, b) && StrLe(b, c)
    ensures StrLe(a, c)
    decreases |a|
  {
    if a != [] && b != [] && c != [] && a[0] == b[0] && b[0] == c[0] {
      StrLeTransitive(a[1..], b[1..], c[1..]);
    }
  }

  lemma {:induction false} StrLeAntisymmetric(a: string, b: string)
    requires StrLe(a, b) && StrLe(b, a)
    ensures a == b
    decreases |a|
  {
    if a != [] && b != [] {
      StrLeAntisymmetric(a[1..], b[1..]);
      assert a == [a[0]] + a[1..];
      assert b == [b[0]] + b[1..];
    }
  }

  predicate Sorted(s: seq<string>) {
    forall i, j :: 0 <= i < j < |s| ==> StrLe(s[i], s[j])
  }

  /** `x` placed before the first element it does not exceed. */
  function Insert(x: string, s: seq<string>): seq<string> {
    if s == [] || StrLe(x, s[0]) then [x] + s else [s[0]] + Insert(x, s[1..])
  }

  /** Python `sorted()` of strings: insertion sort by code point order. */
  function Sort(s: seq<string>): seq<string> {
    if s == [] then [] else Insert(s[0], Sort(s[1..]))
  }

  lemma {:induction false} InsertPerm(x: string, s: seq<string>)
    ensures multiset(Insert(x, s)) == multiset(s) + multiset{x}
  {
    if s != [] && !StrLe(x, s[0]) {
      InsertPerm(x, s[1..]);
      assert s == [s[0]] + s[1..];
    }
  }

  /** Every element of `Insert(x, s)` is `x` or an element of `s`. */
  lemma InsertFrom(x: string, s: seq<string>, k: nat)
    requires k < |Insert(x, s)|
    ensures Insert(x, s)[k] == x || Insert(x, s)[k] in s
  {
    InsertPerm(x, s);
    assert Insert(x, s)[k] in multiset(Insert(x, s));
  }

  lemma {:induction false} InsertSorted(x: string, s: seq<string>)
    requires Sorted(s)
    ensures Sorted(Insert(x, s))
  {
    if s != [] && !StrLe(x, s[0]) {
      InsertSorted(x, s[1..]);
      var r := Insert(x, s[1..]);
      StrLeTotal(x, s[0]);
      forall k | 0 <= k < |r| ensures StrLe(s[0], r[k]) {
        InsertFrom(x, s[1..], k);
      }
      assert Insert(x, s) == [s[0]] + r;
    } else if s != [] {
      forall i, j | 0 <= i < j < |s| + 1 ensures StrLe(([x] + s)[i], ([x] + s)[j]) {
        if i == 0 && j > 1 {
          StrLeTransitive(x, s[0], s[j - 1]);
        }
      }
    }
  }

  /** `Sort` orders its input and keeps every element, with its multiplicity. */
  lemma {:induction false} SortSpec(s: seq<string>)
    ensures Sorted(Sort(s)) && multiset(Sort(s)) == multiset(s)
  {
    if s != [] {
      SortSpec(s[1..]);
      InsertSorted(s[0], Sort(s[1..]));
      InsertPerm(s[0], Sort(s[1..]));
      assert s == [s[0]] + s[1..];
    }
  }

  // Splitting at a class of characters

  /** The first position of a character satisfying `p`, or -1. */
  function FindWhere(s: string, p: char -> bool): (k: int)
    ensures -1 <= k < |s|
  {
    if s == [] then -1
    else if p(s[0]) then 0
    else var k := FindWhere(s[1..], p); if k == -1 then -1 else k + 1
  }

  /** The pieces between the characters satisfying `p`: `s.split(c)`, or `str.splitlines` with the empty pieces kept. */
  function Pieces(s: string, p: char -> bool): (r: seq<string>)
    ensures |r| >= 1
    decreases |s|
  {
    var k := FindWhere(s, p);
    if k == -1 then [s] else [s[..k]] + Pieces(s[k + 1..], p)
  }

  predicate NoneWhere(s: string, p: char -> bool) {
    forall i :: 0 <= i < |s| ==> !p(s[i])
  }

  lemma {:induction false} FindWhereNone(s: string, p: char -> bool)
    requires NoneWhere(s, p)
    ensures FindWhere(s, p) == -1
  {
    if s != [] {
      assert NoneWhere(s[1..], p) by {
        forall i | 0 <= i < |s| - 1 ensures !p(s[1..][i]) {
          assert s[1..][i] == s[i + 1];
        }
      }
      FindWhereNone(s[1..], p);
    }
  }

  /** Past a stretch with no break, the first break is the first of what follows. */
  lemma {:induction false} FindWhereAfter(a: string, b: string, p: char -> bool)
    requires NoneWhere(a, p) && b != [] && p(b[0])
    ensures FindWhere(a + b, p) == |a|
  {
    if a != [] {
      assert (a + b)[1..] == a[1..] + b;
      assert NoneWhere(a[1..], p) by {
        forall i | 0 <= i < |a| - 1 ensures !p(a[1..][i]) {
          assert a[1..][i] == a[i + 1];
        }
      }
      FindWhereAfter(a[1..], b, p);
    } else {
      assert a + b == b;
    }
  }

  /** A break inside `a` is found before anything appended. */
  lemma {:induction false} FindWhereFirst(a: string, b: string, p: char -> bool)
    requires FindWhere(a, p) != -1
    ensures FindWhere(a + b, p) == FindWhere(a, p)
  {
    if !p(a[0]) {
      assert (a + b)[1..] == a[1..] + b;
      FindWhereFirst(a[1..], b, p);
    }
  }

  /**
    Splitting text that ends in a break, followed by more text, splits each
    part: the empty last piece of the first gives way to the pieces of the second.
  */
  lemma {:induction false} PiecesAppend(a: string, b: string, p: char -> bool)
    requires a != [] && p(a[|a| - 1])
    ensures Pieces(a, p)[|Pieces(a, p)| - 1] == []
    ensures Pieces(a + b, p) == Pieces(a, p)[..|Pieces(a, p)| - 1] + Pieces(b, p)
    decreases |a|
  {
    var k := FindWhere(a, p);
    if k == -1 {
      FindWhereNoneAt(a, p, |a| - 1);
    } else {
      var rest := a[k + 1..];
      PiecesAppendStep(a, b, p, k);
      if rest == [] {
        assert rest + b == b;
      } else {
        assert rest[|rest| - 1] == a[|a| - 1];
        PiecesAppend(rest, b, p);
      }
      ConsDropLast(a[..k], Pieces(rest, p), Pieces(b, p));
    }
  }

  /** The first break of `a` is the first break of `a + b`, so both lose the same first piece. */
  lemma PiecesAppendStep(a: string, b: string, p: char -> bool, k: int)
    requires k == FindWhere(a, p) && 0 <= k
    ensures Pieces(a, p) == [a[..k]] + Pieces(a[k + 1..], p)
    ensures Pieces(a + b, p) == [a[..k]] + Pieces(a[k + 1..] + b, p)
  {
    FindWhereFirst(a, b, p);
    PiecesSplit(a, p, k);
    PiecesSplit(a + b, p, k);
    assert (a + b)[..k] == a[..k];
    assert (a + b)[k + 1..] == a[k + 1..] + b;
  }

  lemma ConsDropLast<T>(x: T, pr: seq<T>, q: seq<T>)
    requires pr != []
    ensures ([x] + pr)[|[x] + pr| - 1] == pr[|pr| - 1]
    ensures ([x] + pr)[..|[x] + pr| - 1] + q == [x] + (pr[..|pr| - 1] + q)
  {
    assert ([x] + pr)[..|[x] + pr| - 1] == [x] + pr[..|pr| - 1];
  }

  /** At the first break `k`, the pieces are the text before it, then the pieces after it. */
  lemma PiecesSplit(s: string, p: char -> bool, k: int)
    requires k == FindWhere(s, p) && k != -1
    ensures Pieces(s, p) == [s[..k]] + Pieces(s[k + 1..], p)
  {
  }

  /** A stretch with no break, then a break: the stretch is the first piece. */
  lemma PiecesCons(a: string, c: char, b: string, p: char -> bool)
    requires NoneWhere(a, p) && p(c)
    ensures Pieces(a + [c] + b, p) == [a] + Pieces(b, p)
  {
    var s := a + [c] + b;
    assert s == a + ([c] + b);
    FindWhereAfter(a, [c] + b, p);
    assert s[..|a|] == a && s[|a| + 1..] == b;
  }

  lemma {:induction false} FindWhereNoneAt(s: string, p: char -> bool, i: nat)
    requires FindWhere(s, p) == -1 && i < |s|
    ensures !p(s[i])
  {
    if i > 0 {
      assert !p(s[0]) && FindWhere(s[1..], p) == -1;
      FindWhereNoneAt(s[1..], p, i - 1);
      assert s[1..][i - 1] == s[i];
    }
  }

  /** Lines without breaks, joined and ended by "\n", split back into themselves and one empty piece. */
  lemma {:induction false} PiecesOfLines(ls: seq<string>, p: char -> bool)
    requires ls != [] && p('\n')
    requires forall i :: 0 <= i < |ls| ==> NoneWhere(ls[i], p)
    ensures Pieces(Join(ls, "\n") + "\n", p) == ls + [[]]
  {
    var l := ls[0];
    if |ls| == 1 {
      FindWhereAfter(l, "\n", p);
      var s := l + "\n";
      assert s[..|l|] == l && s[|l| + 1..] == [];
      assert Pieces([], p) == [[]];
    } else {
      var rest := ls[1..];
      JoinCons(l, rest, "\n");
      assert ls == [l] + rest;
      var s := l + ("\n" + Join(rest, "\n") + "\n");
      assert Join(ls, "\n") + "\n" == s;
      FindWhereAfter(l, "\n" + Join(rest, "\n") + "\n", p);
      assert s[..|l|] == l;
      assert s[|l| + 1..] == Join(rest, "\n") + "\n";
      PiecesOfLines(rest, p);
    }
  }
}
