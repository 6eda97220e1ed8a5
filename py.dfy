/** The few behaviours of Python's built-in `str`, `int` and `None` that the
    scripts rely on: `needle in hay`, `sep.join(xs)`, `file.writelines(xs)`,
    `s.split(sep)`, `str(n)` for a non-negative int and `f"{x}"` for an
    optional string. Strings are sequences of characters. */
module Py {
  import opened Wrappers

  /** The exceptions the modelled code can raise; any of them ends the script. */
  datatype Error =
    | IndexError           // `xs[k]` with `k` past the end of the list
    | TypeError            // iterating over `None`
    | ValueError           // unpacking a split into the wrong number of names
    | NotFound(name: string)  // the API answers 404 to a read by name

  /** `needle` occurs in `hay` starting at index `i`. */
  predicate OccursAt(hay: string, needle: string, i: int) {
    0 <= i && i + |needle| <= |hay| && hay[i..i + |needle|] == needle
  }

  /** `needle in hay` for two str values: `needle` occurs at some position. */
  predicate Contains(hay: string, needle: string) {
    exists i | 0 <= i <= |hay| - |needle| :: OccursAt(hay, needle, i)
  }

  /** `[x for x in xs if keep(x)]`: the kept items, in their order. */
  function Filter<T>(xs: seq<T>, keep: T -> bool): (ys: seq<T>)
    ensures |ys| <= |xs|
  {
    if xs == [] then []
    else (if keep(xs[0]) then [xs[0]] else []) + Filter(xs[1..], keep)
  }

  /** Nothing is kept exactly when no element passes the test. */
  lemma {:induction false} FilterEmpty<T>(xs: seq<T>, keep: T -> bool)
    ensures Filter(xs, keep) == [] <==> forall x | x in xs :: !keep(x)
  {
    if xs != [] {
      FilterEmpty(xs[1..], keep);
      assert xs == [xs[0]] + xs[1..];
    }
  }

  /** The filter keeps exactly the items that pass the test. */
  lemma {:induction false} FilterMembers<T>(xs: seq<T>, keep: T -> bool, x: T)
    ensures x in Filter(xs, keep) <==> x in xs && keep(x)
  {
    if xs != [] {
      FilterMembers(xs[1..], keep, x);
      assert xs == [xs[0]] + xs[1..];
    }
  }

  /** Filtering a concatenation filters each half, keeping their order. */
  lemma {:induction false} FilterAppend<T>(xs: seq<T>, ys: seq<T>, keep: T -> bool)
    ensures Filter(xs + ys, keep) == Filter(xs, keep) + Filter(ys, keep)
  {
    if xs != [] {
      FilterAppend(xs[1..], ys, keep);
      assert (xs + ys)[1..] == xs[1..] + ys;
    } else {
      assert xs + ys == ys;
    }
  }

  /** `sep.join(xs)`: the items with `sep` between neighbours and nowhere else. */
  function Join(xs: seq<string>, sep: string): string
  {
    if |xs| == 0 then ""
    else if |xs| == 1 then xs[0]
    else xs[0] + sep + Join(xs[1..], sep)
  }

  /** `file.writelines(xs)`: the items one after another, nothing added. */
  function Concat(xs: seq<string>): string
  {
    if xs == [] then "" else xs[0] + Concat(xs[1..])
  }

  /** `s.split(sep)` for a non-empty `sep`: cut at every occurrence of `sep`,
      searching left to right and resuming after each occurrence found. */
  function Split(s: string, sep: string): (parts: seq<string>)
    requires sep != []
    ensures |parts| >= 1
    decreases |s|
  {
    if |s| < |sep| then [s]
    else if s[..|sep|] == sep then [""] + Split(s[|sep|..], sep)
    else
      var rest := Split(s[1..], sep);
      [[s[0]] + rest[0]] + rest[1..]
  }

  /** `str(n)` for a non-negative int: its decimal digits, most significant first. */
  function NatToString(n: nat): (s: string)
    decreases n
  {
    if n < 10 then [DigitChar(n)] else NatToString(n / 10) + [DigitChar(n % 10)]
  }

  function DigitChar(d: nat): (c: char)
    requires d < 10
    ensures IsDigit(c) && DigitValue(c) == d
  {
    "0123456789"[d]
  }

  predicate IsDigit(c: char) {
    '0' <= c <= '9'
  }

  function DigitValue(c: char): (d: nat)
    requires IsDigit(c)
    ensures d < 10
  {
    (c as int) - ('0' as int)
  }

  /** `int(s)` for a string of decimal digits. */
  function ParseNat(s: string): (n: nat)
    requires forall k | 0 <= k < |s| :: IsDigit(s[k])
    decreases |s|
  {
    if s == [] then 0 else 10 * ParseNat(s[..|s| - 1]) + DigitValue(s[|s| - 1])
  }

  /** `f"{x}"` for an optional str: the string itself, or "None". */
  function OptionText(x: Option<string>): (s: string)
    ensures x.Some? ==> s == x.value
    ensures x.None? ==> s == "None"
  {
    match x
    case Some(v) => v
    case None => "None"
  }

  // ---------------------------------------------------------------------------
  // join and split undo each other

  lemma {:induction false} JoinPrepend(c: string, xs: seq<string>, sep: string)
    requires |xs| >= 1
    ensures Join([c + xs[0]] + xs[1..], sep) == c + Join(xs, sep)
  {
    var ys := [c + xs[0]] + xs[1..];
    assert ys[0] == c + xs[0] && |ys| == |xs|;
    if |xs| > 1 {
      assert ys[1..] == xs[1..];
      calc {
        Join(ys, sep);
        ys[0] + sep + Join(ys[1..], sep);
        (c + xs[0]) + sep + Join(xs[1..], sep);
        c + (xs[0] + sep + Join(xs[1..], sep));
      }
    }
  }

  /** Joining the parts of a split with the same separator gives the string back. */
  lemma {:induction false} JoinSplit(s: string, sep: string)
    requires sep != []
    ensures Join(Split(s, sep), sep) == s
    decreases |s|
  {
    if |s| < |sep| {
      assert Split(s, sep) == [s];
    } else if s[..|sep|] == sep {
      var rest := Split(s[|sep|..], sep);
      assert Split(s, sep) == [""] + rest;
      JoinSplit(s[|sep|..], sep);
      var parts := [""] + rest;
      assert |parts| >= 2 && parts[1..] == rest;
      assert Join(parts, sep) == "" + sep + Join(rest, sep);
      assert s == sep + s[|sep|..];
    } else {
      var rest := Split(s[1..], sep);
      assert Split(s, sep) == [[s[0]] + rest[0]] + rest[1..];
      JoinSplit(s[1..], sep);
      JoinPrepend([s[0]], rest, sep);
      assert [s[0]] + s[1..] == s;
    }
  }

  /** A string without the one-character separator splits into itself. */
  lemma {:induction false} SplitWithout(s: string, c: char)
    requires c !in s
    ensures Split(s, [c]) == [s]
    decreases |s|
  {
    if |s| >= 1 {
      assert s[..1] == [s[0]];
      SplitWithout(s[1..], c);
      assert [s[0]] + s[1..] == s;
    }
  }

  /** A first segment free of the one-character separator is the first part. */
  lemma {:induction false} SplitAfter(a: string, c: char, rest: string)
    requires c !in a
    ensures Split(a + [c] + rest, [c]) == [a] + Split(rest, [c])
    decreases |a|
  {
    var s := a + [c] + rest;
    if a == [] {
      assert s[..1] == [c];
      assert s[1..] == rest;
    } else {
      assert s[..1] == [a[0]];
      assert s[1..] == a[1..] + [c] + rest;
      SplitAfter(a[1..], c, rest);
      assert [a[0]] + a[1..] == a;
    }
  }

  /** Splitting a join on a one-character separator that no item contains
      gives the items back. */
  lemma {:induction false} SplitJoin(xs: seq<string>, c: char)
    requires |xs| >= 1
    requires forall k | 0 <= k < |xs| :: c !in xs[k]
    ensures Split(Join(xs, [c]), [c]) == xs
  {
    if |xs| == 1 {
      SplitWithout(xs[0], c);
    } else {
      SplitJoin(xs[1..], c);
      SplitAfter(xs[0], c, Join(xs[1..], [c]));
      assert xs[0] + [c] + Join(xs[1..], [c]) == Join(xs, [c]);
      assert [xs[0]] + xs[1..] == xs;
    }
  }

  /** Writing each item followed by the separator: the split has one part per
      item, then one empty part after the final separator. */
  lemma {:induction false} SplitTerminated(xs: seq<string>, c: char)
    requires forall k | 0 <= k < |xs| :: c !in xs[k]
    ensures Split(Concat(TerminateAll(xs, c)), [c]) == xs + [""]
  {
    if xs == [] {
      assert Split("", [c]) == [""];
    } else {
      var head, tail := xs[0], xs[1..];
      var ys := TerminateAll(xs, c);
      var rest := Concat(TerminateAll(tail, c));
      assert ys == [head + [c]] + TerminateAll(tail, c);
      assert ys[1..] == TerminateAll(tail, c);
      assert Concat(ys) == head + [c] + rest;
      assert forall k | 0 <= k < |tail| :: tail[k] == xs[k + 1];
      SplitTerminated(tail, c);
      SplitAfter(head, c, rest);
      assert [head] + (tail + [""]) == xs + [""];
    }
  }

  /** Every item with the terminator appended. */
  function TerminateAll(xs: seq<string>, c: char): (ys: seq<string>)
    ensures |ys| == |xs|
    ensures forall k | 0 <= k < |xs| :: ys[k] == xs[k] + [c]
  {
    if xs == [] then [] else [xs[0] + [c]] + TerminateAll(xs[1..], c)
  }

  // ---------------------------------------------------------------------------
  // str(n) is made of digits and int() reads it back

  lemma {:induction false} NatToStringDigits(n: nat)
    ensures |NatToString(n)| >= 1
    ensures forall k | 0 <= k < |NatToString(n)| :: IsDigit(NatToString(n)[k])
    decreases n
  {
    if n >= 10 {
      NatToStringDigits(n / 10);
    }
  }

  lemma {:induction false} ParseNatToString(n: nat)
    ensures forall k | 0 <= k < |NatToString(n)| :: IsDigit(NatToString(n)[k])
    ensures ParseNat(NatToString(n)) == n
    decreases n
  {
    NatToStringDigits(n);
    var s := NatToString(n);
    if n >= 10 {
      ParseNatToString(n / 10);
      assert s[..|s| - 1] == NatToString(n / 10);
    }
  }
}
