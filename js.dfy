/** The few JavaScript value and string operations the bot relies on, over ASCII text. */
module Js {

  datatype Option<T> = None | Some(value: T)

  /** ASCII members of the `\s` class: space, tab, line feed, vertical tab, form feed, carriage return. */
  predicate IsSpace(c: char) {
    c == ' ' || c == '\t' || c == '\n' || c == '\U{0B}' || c == '\U{0C}' || c == '\r'
  }

  predicate NoSpace(s: string) {
    forall k :: 0 <= k < |s| ==> !IsSpace(s[k])
  }

  /** `s.startsWith(p)` */
  predicate StartsWith(s: string, p: string) {
    |p| <= |s| && s[..|p|] == p
  }

  /** `parts.join(sep)` */
  function Join(parts: seq<string>, sep: string): (r: string)
    ensures parts == [] ==> r == ""
    ensures |parts| == 1 ==> r == parts[0]
  {
    if parts == [] then ""
    else if |parts| == 1 then parts[0]
    else parts[0] + sep + Join(parts[1..], sep)
  }

  /** String.prototype.toLowerCase restricted to ASCII letters. */
  function LowerChar(c: char): (r: char)
    ensures !('A' <= r <= 'Z')
    ensures 'A' <= c <= 'Z' ==> r as int == c as int + 32
    ensures !('A' <= c <= 'Z') ==> r == c
  {
    if 'A' <= c <= 'Z' then (c as int + 32) as char else c
  }

  function Lower(s: string): (r: string)
    ensures |r| == |s|
    ensures forall k :: 0 <= k < |s| ==> r[k] == LowerChar(s[k])
  {
    if s == [] then [] else [LowerChar(s[0])] + Lower(s[1..])
  }

  /** Text without capital letters is its own lower-case form. */
  lemma LowerKeepsLowercase(s: string)
    requires forall k :: 0 <= k < |s| ==> !('A' <= s[k] <= 'Z')
    ensures Lower(s) == s
  {
    assert forall k :: 0 <= k < |s| ==> Lower(s)[k] == s[k];
  }

  /** The suffix of `s` that starts at its first non-whitespace character. */
  function DropSpaces(s: string): (r: string)
    ensures |r| <= |s| && r == s[|s| - |r|..]
    ensures r == [] || !IsSpace(r[0])
    ensures forall k :: 0 <= k < |s| - |r| ==> IsSpace(s[k])
  {
    if s != [] && IsSpace(s[0]) then
      var r := DropSpaces(s[1..]);
      assert s[1..][|s| - 1 - |r|..] == s[|s| - |r|..];
      assert forall k :: 1 <= k < |s| - |r| ==> s[k] == s[1..][k - 1];
      r
    else s
  }

  /**
   * `s.split(/\s+/)`: the pieces between maximal runs of whitespace, keeping the
   * empty pieces that a leading or trailing run leaves.
   */
  function SplitWs(s: string): (r: seq<string>)
    ensures |r| >= 1
    ensures forall k :: 0 <= k < |r| ==> NoSpace(r[k])
    decreases |s|
  {
    if s == [] then [""]
    else if IsSpace(s[0]) then [""] + SplitWs(DropSpaces(s))
    else
      var rest := SplitWs(s[1..]);
      [[s[0]] + rest[0]] + rest[1..]
  }

  /** `e` occurs in `t` starting at position `o`. */
  predicate OccursAt(t: string, e: string, o: nat) {
    o + |e| <= |t| && forall i :: 0 <= i < |e| ==> t[o + i] == e[i]
  }

  /** An occurrence is kept, shifted, when a prefix is put in front. */
  lemma OccursAfterPrefix(h: string, t: string, e: string, o: nat)
    requires OccursAt(t, e, o)
    ensures OccursAt(h + t, e, |h| + o)
  {
    forall i | 0 <= i < |e| ensures (h + t)[|h| + o + i] == e[i] {
      assert (h + t)[|h| + o + i] == t[o + i];
    }
  }

  /** Where the `k`-th part starts in `parts.join(sep)`. */
  function JoinOffset(parts: seq<string>, sep: string, k: nat): nat
    requires k < |parts|
  {
    if k == 0 then 0 else |parts[0]| + |sep| + JoinOffset(parts[1..], sep, k - 1)
  }

  /** The join holds every part at its offset. */
  lemma {:induction false} JoinPart(parts: seq<string>, sep: string, k: nat)
    requires k < |parts|
    ensures OccursAt(Join(parts, sep), parts[k], JoinOffset(parts, sep, k))
    decreases k
  {
    var j := Join(parts, sep);
    if |parts| == 1 {
      OccursInConcat(parts[0], [], []);
      assert parts[0] + [] + [] == j;
    } else {
      var rest := Join(parts[1..], sep);
      assert j == parts[0] + sep + rest;
      if k == 0 {
        OccursInConcat(parts[0], sep, rest);
      } else {
        JoinPart(parts[1..], sep, k - 1);
        assert parts[1..][k - 1] == parts[k];
        OccursAfterPrefix(parts[0] + sep, rest, parts[k], JoinOffset(parts[1..], sep, k - 1));
      }
    }
  }

  /** The next part starts one part and one separator further on. */
  lemma {:induction false} JoinOffsetStep(parts: seq<string>, sep: string, k: nat)
    requires k + 1 < |parts|
    ensures JoinOffset(parts, sep, k + 1) == JoinOffset(parts, sep, k) + |parts[k]| + |sep|
    decreases k
  {
    if k > 0 {
      var tail := parts[1..];
      JoinOffsetStep(tail, sep, k - 1);
      assert tail[k - 1] == parts[k];
    }
  }

  /** Consecutive parts are separated by exactly the separator. */
  lemma {:induction false} JoinSeparator(parts: seq<string>, sep: string, k: nat)
    requires k + 1 < |parts|
    ensures JoinOffset(parts, sep, k + 1) == JoinOffset(parts, sep, k) + |parts[k]| + |sep|
    ensures OccursAt(Join(parts, sep), sep, JoinOffset(parts, sep, k) + |parts[k]|)
    decreases k
  {
    JoinOffsetStep(parts, sep, k);
    if k == 0 {
      FirstSeparator(parts, sep);
    } else {
      JoinSeparator(parts[1..], sep, k - 1);
      SeparatorShift(parts, sep, k);
    }
  }

  /** The first separator follows the first part. */
  lemma FirstSeparator(parts: seq<string>, sep: string)
    requires 1 < |parts|
    ensures OccursAt(Join(parts, sep), sep, |parts[0]|)
  {
    var rest := Join(parts[1..], sep);
    assert Join(parts, sep) == parts[0] + sep + rest;
    OccursInConcat(parts[0], sep, rest);
  }

  /** A separator in the join of the tail is a separator in the whole join, one part further on. */
  lemma SeparatorShift(parts: seq<string>, sep: string, k: nat)
    requires 0 < k && k + 1 < |parts|
    requires OccursAt(Join(parts[1..], sep), sep, JoinOffset(parts[1..], sep, k - 1) + |parts[1..][k - 1]|)
    ensures OccursAt(Join(parts, sep), sep, JoinOffset(parts, sep, k) + |parts[k]|)
  {
    var head := parts[0] + sep;
    var rest := Join(parts[1..], sep);
    assert Join(parts, sep) == head + rest;
    var off := JoinOffset(parts[1..], sep, k - 1) + |parts[1..][k - 1]|;
    assert parts[1..][k - 1] == parts[k];
    assert JoinOffset(parts, sep, k) + |parts[k]| == |head| + off;
    OccursAfterPrefix(head, rest, sep, off);
  }

  /** The pieces of a concatenation are its slices. */
  lemma ConcatSlices(a: string, b: string)
    ensures (a + b)[..|a|] == a && (a + b)[|a|..] == b
  {
  }

  /** The join ends right after its last part. */
  lemma {:induction false} JoinLength(parts: seq<string>, sep: string)
    requires parts != []
    ensures |Join(parts, sep)| == JoinOffset(parts, sep, |parts| - 1) + |parts[|parts| - 1]|
    decreases |parts|
  {
    if |parts| > 1 {
      var tail := parts[1..];
      JoinLength(tail, sep);
      assert tail[|tail| - 1] == parts[|parts| - 1];
      assert JoinOffset(parts, sep, |parts| - 1) == |parts[0]| + |sep| + JoinOffset(tail, sep, |tail| - 1);
    }
  }

  /** After a fixed header, the text ends with the last part, or with the header when there are no parts. */
  lemma HeaderJoinLength(t: string, h: string, parts: seq<string>, sep: string)
    requires t == h + Join(parts, sep)
    ensures parts == [] ==> t == h
    ensures parts != [] ==> |t| == |h| + JoinOffset(parts, sep, |parts| - 1) + |parts[|parts| - 1]|
  {
    if parts == [] {
      ConcatSlices(h, "");
    } else {
      JoinLength(parts, sep);
    }
  }

  /** Both leading pieces of a three-piece concatenation occur where they were put. */
  lemma OccursInConcat(a: string, b: string, c: string)
    ensures OccursAt(a + b + c, a, 0) && OccursAt(a + b + c, b, |a|)
  {
    forall i | 0 <= i < |a| ensures (a + b + c)[0 + i] == a[i] {
    }
    forall i | 0 <= i < |b| ensures (a + b + c)[|a| + i] == b[i] {
    }
  }

  /** The same placement after a fixed header. */
  lemma HeaderJoinPart(t: string, h: string, parts: seq<string>, sep: string, k: nat)
    requires k < |parts| && t == h + Join(parts, sep)
    ensures OccursAt(t, parts[k], |h| + JoinOffset(parts, sep, k))
  {
    JoinPart(parts, sep, k);
    OccursAfterPrefix(h, Join(parts, sep), parts[k], JoinOffset(parts, sep, k));
  }

  /** After a fixed header, the separator sits right after every part but the last. */
  lemma HeaderJoinSeparator(t: string, h: string, parts: seq<string>, sep: string, p: nat)
    requires p + 1 < |parts| && t == h + Join(parts, sep)
    ensures JoinOffset(parts, sep, p + 1) == JoinOffset(parts, sep, p) + |parts[p]| + |sep|
    ensures OccursAt(t, sep, |h| + JoinOffset(parts, sep, p) + |parts[p]|)
  {
    JoinSeparator(parts, sep, p);
    OccursAfterPrefix(h, Join(parts, sep), sep, JoinOffset(parts, sep, p) + |parts[p]|);
  }

  /** `s` with every maximal run of whitespace replaced by one space. */
  function Collapse(s: string): string
    decreases |s|
  {
    if s == [] then ""
    else if IsSpace(s[0]) then " " + Collapse(DropSpaces(s))
    else [s[0]] + Collapse(s[1..])
  }

  /** Joining the pieces of a whitespace split with single spaces gives the text with its runs collapsed. */
  lemma {:induction false} JoinSplitWs(s: string)
    ensures Join(SplitWs(s), " ") == Collapse(s)
    decreases |s|
  {
    if s == [] {
    } else if IsSpace(s[0]) {
      var d := DropSpaces(s);
      JoinSplitWs(d);
      assert SplitWs(s) == [""] + SplitWs(d);
      JoinCons("", SplitWs(d), " ");
    } else {
      var rest := SplitWs(s[1..]);
      JoinSplitWs(s[1..]);
      JoinHead(s[0], rest, " ");
    }
  }

  /** Joining a part in front of a non-empty list puts the separator between it and the rest's join. */
  lemma JoinCons(head: string, tail: seq<string>, sep: string)
    requires tail != []
    ensures Join([head] + tail, sep) == head + sep + Join(tail, sep)
  {
    assert ([head] + tail)[1..] == tail;
  }

  lemma JoinHead(c: char, parts: seq<string>, sep: string)
    requires parts != []
    ensures Join([[c] + parts[0]] + parts[1..], sep) == [c] + Join(parts, sep)
  {
    var q := [[c] + parts[0]] + parts[1..];
    if |parts| > 1 {
      assert q[1..] == parts[1..];
    }
  }

  /** A text without whitespace splits into itself alone. */
  lemma {:induction false} SplitWsSingle(s: string)
    requires NoSpace(s)
    ensures SplitWs(s) == [s]
    decreases |s|
  {
    if s != [] {
      SplitWsSingle(s[1..]);
      assert [s[0]] + s[1..] == s;
    }
  }

  /** `s.split(c)` for a one-character separator. */
  function SplitOn(s: string, c: char): (r: seq<string>)
    ensures |r| >= 1
    ensures forall k :: 0 <= k < |r| ==> c !in r[k]
    decreases |s|
  {
    if s == [] then [""]
    else if s[0] == c then [""] + SplitOn(s[1..], c)
    else
      var rest := SplitOn(s[1..], c);
      [[s[0]] + rest[0]] + rest[1..]
  }

  /** Splitting the join of separator-free parts gives the parts back. */
  lemma {:induction false} SplitOnJoin(parts: seq<string>, c: char)
    requires parts != []
    requires forall k :: 0 <= k < |parts| ==> c !in parts[k]
    ensures SplitOn(Join(parts, [c]), c) == parts
    decreases parts
  {
    if |parts| == 1 {
      SplitOnPlain(parts[0], c);
    } else {
      var tail := Join(parts[1..], [c]);
      assert Join(parts, [c]) == parts[0] + [c] + tail;
      SplitOnJoin(parts[1..], c);
      SplitOnPrefix(parts[0], tail, c);
      assert [parts[0]] + parts[1..] == parts;
    }
  }

  lemma {:induction false} SplitOnPlain(s: string, c: char)
    requires c !in s
    ensures SplitOn(s, c) == [s]
    decreases |s|
  {
    if s != [] {
      SplitOnPlain(s[1..], c);
      assert [s[0]] + s[1..] == s;
    }
  }

  lemma {:induction false} SplitOnPrefix(p: string, rest: string, c: char)
    requires c !in p
    ensures SplitOn(p + [c] + rest, c) == [p] + SplitOn(rest, c)
    decreases |p|
  {
    if p == [] {
      assert p + [c] + rest == [c] + rest;
      assert ([c] + rest)[1..] == rest;
    } else {
      var q := p + [c] + rest;
      assert q[0] == p[0] && q[1..] == p[1..] + [c] + rest;
      SplitOnPrefix(p[1..], rest, c);
      var tail := SplitOn(q[1..], c);
      assert tail == [p[1..]] + SplitOn(rest, c);
      assert [p[0]] + p[1..] == p;
    }
  }

  /** `parts.pop()` on a split result, which is never empty. */
  function Last(parts: seq<string>): string
    requires parts != []
  {
    parts[|parts| - 1]
  }

  /** Decimal rendering of an integer, as template interpolation of a number gives it. */
  function NatToString(n: nat): (r: string)
    ensures r != []
    ensures forall k :: 0 <= k < |r| ==> '0' <= r[k] <= '9'
    ensures |r| > 1 ==> r[0] != '0'
  {
    if n < 10 then [Digit(n)] else NatToString(n / 10) + [Digit(n % 10)]
  }

  function Digit(d: nat): (r: char)
    requires d < 10
    ensures '0' <= r <= '9'
    ensures r as int - '0' as int == d
  {
    "0123456789"[d]
  }

  predicate AllDigits(s: string) {
    forall k :: 0 <= k < |s| ==> '0' <= s[k] <= '9'
  }

  /** The number a string of decimal digits denotes, read most significant digit first. */
  function DecimalValue(s: string): nat
    requires AllDigits(s)
  {
    if s == [] then 0 else 10 * DecimalValue(s[..|s| - 1]) + (s[|s| - 1] as int - '0' as int)
  }

  /** The rendering denotes the number it renders, without leading zeros. */
  lemma {:induction false} NatToStringValue(n: nat)
    ensures DecimalValue(NatToString(n)) == n
  {
    var r := NatToString(n);
    if n >= 10 {
      var q := NatToString(n / 10);
      assert r[..|r| - 1] == q;
      NatToStringValue(n / 10);
    }
  }

  function IntToString(n: int): (r: string)
    ensures r != []
  {
    if n < 0 then "-" + NatToString(-n) else NatToString(n)
  }

  /** A rendered integer reads back as that integer: a minus sign iff it is negative, then its magnitude. */
  lemma IntToStringValue(n: int)
    ensures IntToString(n)[0] == '-' <==> n < 0
    ensures n >= 0 ==> DecimalValue(IntToString(n)) == n
    ensures n < 0 ==> DecimalValue(IntToString(n)[1..]) == -n
  {
    if n < 0 {
      NatToStringValue(-n);
      SignedDigits(NatToString(-n));
    } else {
      NatToStringValue(n);
    }
  }

  lemma SignedDigits(m: string)
    requires AllDigits(m)
    ensures ("-" + m)[0] == '-' && ("-" + m)[1..] == m && AllDigits(("-" + m)[1..])
  {
    assert ("-" + m)[1..] == m;
  }

  /** Template interpolation of a number that may be `undefined`. */
  function NumberText(n: Option<int>): (r: string)
    ensures r != []
    ensures n.None? ==> r == "undefined"
    ensures n.Some? ==> r == IntToString(n.value)
  {
    match n
    case Some(v) => IntToString(v)
    case None => "undefined"
  }
}
