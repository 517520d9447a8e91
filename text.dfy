/**
  The Python string primitives the pipeline is built on: `str.split()` with no
  argument, `sep.join(items)`, `str.strip()` with no argument, and `str(n)` of an
  integer. Whitespace is the set of characters for which Python's `str.isspace()`
  holds.
 */
module Text {

  /** Python's `str.isspace()` for one character. */
  predicate IsSpace(c: char)
  {
    var n := c as int;
    n == 0x20 || (0x09 <= n <= 0x0D) || (0x1C <= n <= 0x1F) || n == 0x85 || n == 0xA0
    || n == 0x1680 || (0x2000 <= n <= 0x200A) || n == 0x2028 || n == 0x2029
    || n == 0x202F || n == 0x205F || n == 0x3000
  }

  predicate NoSpace(s: string)
  {
    forall i :: 0 <= i < |s| ==> !IsSpace(s[i])
  }

  /** A word as `str.split()` produces it: non-empty and without whitespace. */
  predicate IsWord(s: string)
  {
    s != [] && NoSpace(s)
  }

  predicate AllWords(items: seq<string>)
  {
    forall i :: 0 <= i < |items| ==> IsWord(items[i])
  }

  predicate IsDigit(c: char)
  {
    '0' <= c <= '9'
  }

  /** Length of the longest whitespace-free prefix of `s`. */
  function WordLen(s: string): (n: nat)
    ensures n <= |s|
    ensures NoSpace(s[..n])
    ensures n == |s| || IsSpace(s[n])
    ensures s != [] && !IsSpace(s[0]) ==> n > 0
  {
    if s == [] || IsSpace(s[0]) then 0
    else
      var m := WordLen(s[1..]);
      assert s[..m + 1] == [s[0]] + s[1..][..m];
      m + 1
  }

  /** `s.split()`: the maximal whitespace-free runs of `s`, in order. */
  function Split(s: string): (words: seq<string>)
    ensures AllWords(words)
    decreases |s|
  {
    if s == [] then []
    else if IsSpace(s[0]) then Split(s[1..])
    else
      var n := WordLen(s);
      [s[..n]] + Split(s[n..])
  }

  /** `sep.join(items)`. */
  function JoinWith(sep: string, items: seq<string>): string
    decreases |items|
  {
    if |items| == 0 then ""
    else if |items| == 1 then items[0]
    else items[0] + sep + JoinWith(sep, items[1..])
  }

  /** Removes leading whitespace. */
  function TrimStart(s: string): string
    decreases |s|
  {
    if s != [] && IsSpace(s[0]) then TrimStart(s[1..]) else s
  }

  /** Removes trailing whitespace. */
  function TrimEnd(s: string): string
    decreases |s|
  {
    if s != [] && IsSpace(s[|s| - 1]) then TrimEnd(s[..|s| - 1]) else s
  }

  /** `s.strip()`. */
  function Strip(s: string): string
  {
    TrimEnd(TrimStart(s))
  }

  function DigitChar(d: nat): (c: char)
    requires d < 10
    ensures IsDigit(c)
  {
    "0123456789"[d]
  }

  /** Decimal rendering of a natural number, without leading zeros. */
  function NatToString(n: nat): (s: string)
    ensures s != []
    ensures forall i :: 0 <= i < |s| ==> IsDigit(s[i])
  {
    if n < 10 then [DigitChar(n)] else NatToString(n / 10) + [DigitChar(n % 10)]
  }

  /** `str(n)`: a minus sign for negative numbers, then the decimal digits. */
  function IntToString(n: int): (s: string)
    ensures s != [] && NoSpace(s)
    ensures n >= 0 ==> s == NatToString(n)
    ensures forall i :: 0 <= i < |s| ==> IsDigit(s[i]) || s[i] == '-'
  {
    if n < 0 then "-" + NatToString(-n) else NatToString(n)
  }

  // ---------------------------------------------------------------------------
  // Lemmas connecting split, join and strip.

  lemma NoSpaceConcat(a: string, b: string)
    requires NoSpace(a) && NoSpace(b)
    ensures NoSpace(a + b)
  {
    forall i | 0 <= i < |a + b| ensures !IsSpace((a + b)[i]) {
      if i >= |a| {
        assert (a + b)[i] == b[i - |a|];
      }
    }
  }

  /** Splitting at a word boundary: the word is exactly the whitespace-free prefix. */
  lemma {:induction false} WordLenOfWord(w: string, rest: string)
    requires NoSpace(w)
    requires rest == [] || IsSpace(rest[0])
    ensures WordLen(w + rest) == |w|
    decreases |w|
  {
    if w != [] {
      assert (w + rest)[1..] == w[1..] + rest;
      WordLenOfWord(w[1..], rest);
    } else {
      assert w + rest == rest;
    }
  }

  /** Appending one item to a non-empty join adds one separator and the item. */
  lemma {:induction false} JoinWithAppend(sep: string, items: seq<string>, x: string)
    requires items != []
    ensures JoinWith(sep, items + [x]) == JoinWith(sep, items) + sep + x
    decreases |items|
  {
    if |items| == 1 {
      assert items + [x] == [items[0], x];
      assert (items + [x])[1..] == [x];
    } else {
      assert (items + [x])[1..] == items[1..] + [x];
      JoinWithAppend(sep, items[1..], x);
    }
  }

  /** A space-join of words begins with the first word's first character and
      ends with the last word's last character. */
  lemma {:induction false} JoinSpacesEnds(items: seq<string>)
    requires items != [] && AllWords(items)
    ensures var j := JoinWith(" ", items);
      |j| > 0 && j[0] == items[0][0] && j[|j| - 1] == items[|items| - 1][|items[|items| - 1]| - 1]
    decreases |items|
  {
    if |items| > 1 {
      var rest := JoinWith(" ", items[1..]);
      JoinSpacesEnds(items[1..]);
      var j := items[0] + " " + rest;
      assert j == items[0] + (" " + rest);
      assert j[0] == items[0][0];
      assert j[|j| - 1] == rest[|rest| - 1];
      assert items[1..][|items| - 2] == items[|items| - 1];
    }
  }

  /** `split` inverts a single-space `join` of words. */
  lemma {:induction false} SplitJoinSpaces(items: seq<string>)
    requires AllWords(items)
    ensures Split(JoinWith(" ", items)) == items
    decreases |items|
  {
    if |items| == 1 {
      var w := items[0];
      WordLenOfWord(w, "");
      assert w + "" == w;
      assert w[|w|..] == [];
      assert w[..|w|] == w;
    } else if |items| > 1 {
      var w := items[0];
      var rest := JoinWith(" ", items[1..]);
      var s := w + " " + rest;
      assert s == w + (" " + rest);
      WordLenOfWord(w, " " + rest);
      assert s[..|w|] == w;
      assert s[|w|..] == " " + rest;
      assert (" " + rest)[1..] == rest;
      SplitJoinSpaces(items[1..]);
      assert Split(s) == [w] + Split(rest);
    }
  }

  /** The first word of `a + b` is the first word of `a` when `a` starts with
      one and whitespace separates `a` from `b`. */
  lemma {:induction false} SplitFirstWord(a: string, b: string)
    requires a != [] && !IsSpace(a[0]) && b != []
    requires IsSpace(a[|a| - 1]) || IsSpace(b[0])
    ensures WordLen(a) <= |a|
    ensures Split(a + b) == [a[..WordLen(a)]] + Split(a[WordLen(a)..] + b)
  {
    var n := WordLen(a);
    assert WordLen(a + b) == n by {
      if n < |a| {
        assert a + b == a[..n] + (a[n..] + b);
        WordLenOfWord(a[..n], a[n..] + b);
      } else {
        assert IsSpace(b[0]) by {
          assert !IsSpace(a[..n][|a| - 1]);
        }
        WordLenOfWord(a, b);
      }
    }
    var ab := a + b;
    assert ab != [] && ab[0] == a[0];
    assert Split(ab) == [ab[..n]] + Split(ab[n..]);
    assert ab[..n] == a[..n];
    assert ab[n..] == a[n..] + b;
  }

  /** Whitespace between two strings separates their words: splitting the
      concatenation splits each part. */
  lemma {:induction false} SplitAppend(a: string, b: string)
    requires a == [] || b == [] || IsSpace(a[|a| - 1]) || IsSpace(b[0])
    ensures Split(a + b) == Split(a) + Split(b)
    decreases |a|
  {
    if a == [] {
      assert a + b == b;
    } else if b == [] {
      assert a + b == a;
    } else if IsSpace(a[0]) {
      assert (a + b)[1..] == a[1..] + b;
      SplitAppend(a[1..], b);
    } else {
      var n := WordLen(a);
      SplitFirstWord(a, b);
      SplitAppend(a[n..], b);
    }
  }

  /** A space-join of words followed by one space strips back to the join. */
  lemma StripTrailingSpace(items: seq<string>)
    requires items != [] && AllWords(items)
    ensures Strip(JoinWith(" ", items) + " ") == JoinWith(" ", items)
  {
    var j := JoinWith(" ", items);
    JoinSpacesEnds(items);
    var s := j + " ";
    assert TrimStart(s) == s;
    assert s[..|s| - 1] == j;
    assert TrimEnd(s) == TrimEnd(j);
  }

  /** A space-join of words is in canonical form: no whitespace at either end,
      and joining its own split gives it back, so words are separated by
      exactly one space. */
  lemma JoinSpacesCanonical(items: seq<string>)
    requires AllWords(items)
    ensures var j := JoinWith(" ", items);
      && (j == [] <==> items == [])
      && (j != [] ==> !IsSpace(j[0]) && !IsSpace(j[|j| - 1]))
      && JoinWith(" ", Split(j)) == j
      && Strip(j) == j
  {
    SplitJoinSpaces(items);
    if items != [] {
      JoinSpacesEnds(items);
    }
  }
}
