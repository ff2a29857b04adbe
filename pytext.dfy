/**
 * The handful of Python `str` operations the monitors, the Jenkins gate and the
 * chat server rely on, stated over `string` (a sequence of characters):
 * `s.split(c)`, `c.join(parts)`, `s.split(c)[-1]`, `s.rsplit(c, 1)[0]`,
 * `p in s`, `s.strip()` and `str(i)` for integers.
 */
module PyText {

  datatype Option<+T> = None | Some(value: T) {
    /** `d.get(key, default)` once the lookup has produced this option. */
    function GetOr(default: T): T {
      match this
      case Some(v) => v
      case None => default
    }
  }

  /** The outcome of a call that either returns or raises with a message. */
  datatype Result<+T> = Ok(value: T) | Raised(message: string)

  /** Number of occurrences of `c` in `s` (`s.count(c)`). */
  function CountChar(s: string, c: char): (n: nat)
    ensures n == 0 <==> c !in s
    ensures n <= |s|
  {
    if s == [] then 0
    else (if s[0] == c then 1 else 0) + CountChar(s[1..], c)
  }

  /** `s.split(c)` for a one-character separator; never empty. */
  function Split(s: string, c: char): (parts: seq<string>)
    ensures |parts| >= 1
  {
    if s == [] then [""]
    else
      var rest := Split(s[1..], c);
      if s[0] == c then [""] + rest
      else [[s[0]] + rest[0]] + rest[1..]
  }

  /** `s.split(c)` has one more piece than `s` has separators, and no piece holds one. */
  lemma {:induction false} SplitPieces(s: string, c: char)
    ensures |Split(s, c)| == CountChar(s, c) + 1
    ensures forall i :: 0 <= i < |Split(s, c)| ==> c !in Split(s, c)[i]
  {
    if s != [] {
      SplitPieces(s[1..], c);
    }
  }

  /** `c.join(parts)` for a one-character separator. */
  function Join(c: char, parts: seq<string>): string
  {
    if parts == [] then ""
    else if |parts| == 1 then parts[0]
    else parts[0] + [c] + Join(c, parts[1..])
  }

  /** Prefixing the first piece prefixes the joined string. */
  lemma {:induction false} JoinPrefixFirst(c: char, a: string, parts: seq<string>)
    requires parts != []
    ensures Join(c, [a + parts[0]] + parts[1..]) == a + Join(c, parts)
  {
    var ps := [a + parts[0]] + parts[1..];
    assert ps[1..] == parts[1..];
    if |parts| > 1 {
      assert Join(c, ps) == (a + parts[0]) + [c] + Join(c, parts[1..]);
    }
  }

  /** Joining the pieces of a split gives back the string. */
  lemma {:induction false} JoinSplit(s: string, c: char)
    ensures Join(c, Split(s, c)) == s
  {
    if s != [] {
      var rest := Split(s[1..], c);
      JoinSplit(s[1..], c);
      if s[0] == c {
        var ps := [""] + rest;
        assert ps[1..] == rest;
        assert Join(c, ps) == "" + [c] + Join(c, rest);
        assert s == [s[0]] + s[1..];
      } else {
        JoinPrefixFirst(c, [s[0]], rest);
        assert s == [s[0]] + s[1..];
      }
    }
  }

  /** A string without the separator splits into itself alone. */
  lemma SplitWithoutSeparator(s: string, c: char)
    requires c !in s
    ensures Split(s, c) == [s]
  {
    JoinSplit(s, c);
  }

  /** Splitting around one separator splits each side independently. */
  lemma {:induction false} SplitAround(a: string, b: string, c: char)
    ensures Split(a + [c] + b, c) == Split(a, c) + Split(b, c)
  {
    if a == [] {
      assert a + [c] + b == [c] + b;
      SplitCons(c, b, c);
    } else {
      var x, t := a[0], a[1..];
      assert a == [x] + t;
      assert a + [c] + b == [x] + (t + [c] + b);
      SplitAround(t, b, c);
      SplitAroundStep(x, t, b, c);
    }
  }

  lemma SplitAroundStep(x: char, t: string, b: string, c: char)
    requires Split(t + [c] + b, c) == Split(t, c) + Split(b, c)
    ensures Split([x] + (t + [c] + b), c) == Split([x] + t, c) + Split(b, c)
  {
    var u, ts, bs := t + [c] + b, Split(t, c), Split(b, c);
    if x == c {
      calc {
        Split([x] + u, c);
        { SplitCons(x, u, c); }
        [""] + (ts + bs);
        ([""] + ts) + bs;
        { SplitCons(x, t, c); }
        Split([x] + t, c) + bs;
      }
    } else {
      calc {
        Split([x] + u, c);
        { SplitCons(x, u, c); }
        [[x] + (ts + bs)[0]] + (ts + bs)[1..];
        { ExtendFirstPiece([x], ts, bs); }
        [[x] + ts[0]] + ts[1..] + bs;
        { SplitCons(x, t, c); }
        Split([x] + t, c) + bs;
      }
    }
  }

  /** Extending the first of some pieces, then appending more pieces, is the same in either order. */
  lemma ExtendFirstPiece(p: string, xs: seq<string>, ys: seq<string>)
    requires xs != []
    ensures [p + (xs + ys)[0]] + (xs + ys)[1..] == [p + xs[0]] + xs[1..] + ys
  {
    assert (xs + ys)[0] == xs[0];
    assert (xs + ys)[1..] == xs[1..] + ys;
  }

  /** One step of `split`: the first character either ends the first piece or joins it. */
  lemma SplitCons(x: char, t: string, c: char)
    ensures Split([x] + t, c) ==
      if x == c then [""] + Split(t, c) else [[x] + Split(t, c)[0]] + Split(t, c)[1..]
  {
    var s := [x] + t;
    assert s[0] == x && s[1..] == t;
  }

  /** Index of the last `c` in `s`, or -1 (`s.rfind(c)`). */
  function LastIndexOf(s: string, c: char): (k: int)
    ensures -1 <= k < |s|
    ensures k == -1 <==> c !in s
    ensures k >= 0 ==> s[k] == c && c !in s[k + 1..]
  {
    if s == [] then -1
    else if s[|s| - 1] == c then |s| - 1
    else
      var init := s[..|s| - 1];
      var k := LastIndexOf(init, c);
      assert s == init + [s[|s| - 1]];
      if k >= 0 then
        assert s[k + 1..] == init[k + 1..] + [s[|s| - 1]];
        k
      else
        k
  }

  /** Index of the first `c` in `s`, or -1 (`s.find(c)`). */
  function IndexOf(s: string, c: char): (k: int)
    ensures -1 <= k < |s|
    ensures k == -1 <==> c !in s
    ensures k >= 0 ==> s[k] == c && c !in s[..k]
  {
    if s == [] then -1
    else if s[0] == c then 0
    else
      var k := IndexOf(s[1..], c);
      assert k >= 0 ==> s[..k + 1] == [s[0]] + s[1..][..k];
      assert s == [s[0]] + s[1..];
      if k < 0 then -1 else k + 1
  }

  /** The first separator of `a + [c] + b` is the one after `a` when `a` has none. */
  lemma IndexOfAfter(a: string, b: string, c: char)
    requires c !in a
    ensures IndexOf(a + [c] + b, c) == |a|
  {
    var s := a + [c] + b;
    assert s[|a|] == c;
  }

  /** The split of `s` around its last separator. */
  lemma SplitAtLast(s: string, c: char)
    requires c in s
    ensures var k := LastIndexOf(s, c);
      Split(s, c) == Split(s[..k], c) + [s[k + 1..]]
  {
    var k := LastIndexOf(s, c);
    assert s == s[..k] + [c] + s[k + 1..];
    SplitAround(s[..k], s[k + 1..], c);
    SplitWithoutSeparator(s[k + 1..], c);
  }

  /** `s.split(c)[-1]`: the part after the last separator, or all of `s`. */
  function LastSegment(s: string, c: char): (r: string)
    ensures c !in r
    ensures |r| <= |s| && r == s[|s| - |r|..]
    ensures |r| < |s| ==> s[|s| - |r| - 1] == c
  {
    var parts := Split(s, c);
    if c in s then
      SplitAtLast(s, c);
      parts[|parts| - 1]
    else
      SplitWithoutSeparator(s, c);
      parts[|parts| - 1]
  }

  /** The last segment after a prefix ending in a separator is what follows it. */
  lemma LastSegmentAfter(p: string, z: string, c: char)
    requires c !in z
    ensures LastSegment(p + [c] + z, c) == z
  {
    var s := p + [c] + z;
    assert s[|s| - |z| - 1] == c;
    assert s[|s| - |z|..] == z;
  }

  /** `c.join(s.split(c)[:-1])`: everything before the last separator, or "" if there is none. */
  function DropLastPart(s: string, c: char): string
  {
    var parts := Split(s, c);
    Join(c, parts[..|parts| - 1])
  }

  lemma DropLastPartIsPrefix(s: string, c: char)
    ensures DropLastPart(s, c) == if c in s then s[..LastIndexOf(s, c)] else ""
  {
    var parts := Split(s, c);
    if c in s {
      var k := LastIndexOf(s, c);
      SplitAtLast(s, c);
      assert parts[..|parts| - 1] == Split(s[..k], c);
      JoinSplit(s[..k], c);
    } else {
      SplitWithoutSeparator(s, c);
      assert parts[..|parts| - 1] == [];
    }
  }

  /** `s.rsplit(c, 1)`: at most two pieces, cut at the last separator. */
  function RSplitOnce(s: string, c: char): (parts: seq<string>)
    ensures 1 <= |parts| <= 2
  {
    var k := LastIndexOf(s, c);
    if k < 0 then [s] else [s[..k], s[k + 1..]]
  }

  /** `p` occurs in `s` starting at index `i`. */
  predicate OccursAt(s: string, p: string, i: int)
  {
    0 <= i <= |s| - |p| && s[i..i + |p|] == p
  }

  /** `p in s` for strings: `p` occurs somewhere in `s`. */
  function Contains(s: string, p: string): (r: bool)
    ensures r <==> exists i :: OccursAt(s, p, i)
    decreases |s|
  {
    if |p| <= |s| && s[..|p|] == p then
      assert OccursAt(s, p, 0);
      true
    else if s == [] then
      false
    else
      var r := Contains(s[1..], p);
      if r then
        var i :| OccursAt(s[1..], p, i);
        OccursInTail(s, p, i);
        true
      else
        assert forall i :: OccursAt(s, p, i) ==> OccursAt(s[1..], p, i - 1) by {
          forall i | OccursAt(s, p, i)
            ensures OccursAt(s[1..], p, i - 1)
          {
            OccursPastHead(s, p, i);
          }
        }
        false
  }

  /** An occurrence in the tail is an occurrence one place further on. */
  lemma OccursInTail(s: string, p: string, i: int)
    requires s != [] && OccursAt(s[1..], p, i)
    ensures OccursAt(s, p, i + 1)
  {
    assert s[1..][i..i + |p|] == s[i + 1..i + 1 + |p|];
  }

  /** An occurrence that does not start at the head is an occurrence in the tail. */
  lemma OccursPastHead(s: string, p: string, i: int)
    requires OccursAt(s, p, i) && !(s[..|p|] == p)
    ensures OccursAt(s[1..], p, i - 1)
  {
    assert i != 0;
    assert s[1..][i - 1..i - 1 + |p|] == s[i..i + |p|];
  }

  /**
   * The characters `str.isspace()` holds for, which `str.strip()` removes: the
   * controls 0x09-0x0D and 0x1C-0x1F, the space, and the Unicode spaces and
   * line and paragraph separators.
   */
  predicate IsSpace(ch: char)
  {
    || ('\t' <= ch <= '\r')
    || ('\U{1C}' <= ch <= ' ')
    || ch == '\U{85}' || ch == '\U{A0}' || ch == '\U{1680}'
    || ('\U{2000}' <= ch <= '\U{200A}')
    || ch == '\U{2028}' || ch == '\U{2029}' || ch == '\U{202F}' || ch == '\U{205F}' || ch == '\U{3000}'
  }

  predicate AllSpace(s: string)
  {
    forall k :: 0 <= k < |s| ==> IsSpace(s[k])
  }

  /** A whitespace character followed by whitespace is a whitespace prefix. */
  lemma AllSpaceAfterSpace(s: string, n: nat)
    requires 1 <= n <= |s| && IsSpace(s[0]) && AllSpace(s[1..n])
    ensures AllSpace(s[..n])
  {
    forall k | 0 <= k < n
      ensures IsSpace(s[..n][k])
    {
      if k > 0 {
        assert s[..n][k] == s[1..n][k - 1];
      }
    }
  }

  /** Whitespace followed by a whitespace character is a whitespace suffix. */
  lemma AllSpaceBeforeSpace(s: string, n: nat)
    requires n < |s| && IsSpace(s[|s| - 1]) && AllSpace(s[n..|s| - 1])
    ensures AllSpace(s[n..])
  {
    forall k | 0 <= k < |s| - n
      ensures IsSpace(s[n..][k])
    {
      if k < |s| - 1 - n {
        assert s[n..][k] == s[n..|s| - 1][k];
      }
    }
  }

  /** `s.lstrip()`: the suffix left once the leading whitespace is gone. */
  function StripLeft(s: string): (r: string)
    ensures r == [] || !IsSpace(r[0])
    ensures |r| <= |s| && r == s[|s| - |r|..]
    ensures AllSpace(s[..|s| - |r|])
  {
    if s != [] && IsSpace(s[0]) then
      var r := StripLeft(s[1..]);
      assert s[1..][..|s| - 1 - |r|] == s[1..|s| - |r|];
      AllSpaceAfterSpace(s, |s| - |r|);
      r
    else s
  }

  /** `s.rstrip()`: the prefix left once the trailing whitespace is gone. */
  function StripRight(s: string): (r: string)
    ensures r == [] || !IsSpace(r[|r| - 1])
    ensures |r| <= |s| && r == s[..|r|]
    ensures AllSpace(s[|r|..])
  {
    if s != [] && IsSpace(s[|s| - 1]) then
      var r := StripRight(s[..|s| - 1]);
      assert s[..|s| - 1][|r|..] == s[|r|..|s| - 1];
      AllSpaceBeforeSpace(s, |r|);
      r
    else s
  }

  /**
   * `s.strip()`: the part of `s` between a whitespace prefix and a whitespace
   * suffix, with no whitespace at either of its own ends.
   */
  function Strip(s: string): (r: string)
    ensures r == [] || (!IsSpace(r[0]) && !IsSpace(r[|r| - 1]))
    ensures exists i, j :: 0 <= i <= j <= |s| && r == s[i..j] && AllSpace(s[..i]) && AllSpace(s[j..])
  {
    var l := StripLeft(s);
    var r := StripRight(l);
    assert r != [] ==> r[0] == l[0];
    var i := |s| - |l|;
    var j := i + |r|;
    assert r == s[i..j];
    assert s[j..] == l[|r|..];
    r
  }

  lemma {:induction false} StripLeftSpaces(pre: string, t: string)
    requires AllSpace(pre)
    requires t == [] || !IsSpace(t[0])
    ensures StripLeft(pre + t) == t
    decreases |pre|
  {
    if pre == [] {
      assert pre + t == t;
    } else {
      assert (pre + t)[1..] == pre[1..] + t;
      assert (pre + t)[0] == pre[0];
      StripLeftSpaces(pre[1..], t);
    }
  }

  lemma {:induction false} StripRightSpaces(t: string, post: string)
    requires AllSpace(post)
    requires t == [] || !IsSpace(t[|t| - 1])
    ensures StripRight(t + post) == t
    decreases |post|
  {
    if post == [] {
      assert t + post == t;
    } else {
      var init := post[..|post| - 1];
      assert (t + post)[..|t + post| - 1] == t + init;
      assert (t + post)[|t + post| - 1] == post[|post| - 1];
      StripRightSpaces(t, init);
    }
  }

  /**
   * Whatever whitespace surrounds a text with no whitespace at its ends,
   * `strip()` gives back exactly that text; with `Strip`'s own ensures this
   * pins `strip()` down.
   */
  lemma StripAround(pre: string, t: string, post: string)
    requires AllSpace(pre) && AllSpace(post)
    requires t == [] || (!IsSpace(t[0]) && !IsSpace(t[|t| - 1]))
    ensures Strip(pre + t + post) == t
  {
    if t == [] {
      assert pre + t + post == (pre + post) + [];
      StripLeftSpaces(pre + post, []);
    } else {
      assert pre + t + post == pre + (t + post);
      assert (t + post)[0] == t[0];
      StripLeftSpaces(pre, t + post);
      StripRightSpaces(t, post);
    }
  }

  /** The information separator controls count as whitespace: `"\x1fMon".strip()` is `"Mon"`. */
  lemma StripRemovesSeparatorControls()
    ensures Strip("\U{1F}Mon") == "Mon"
  {
    assert "\U{1F}Mon" == "\U{1F}" + "Mon" + "";
    StripAround("\U{1F}", "Mon", "");
  }

  function DigitChar(d: nat): (ch: char)
    requires d < 10
    ensures '0' <= ch <= '9' && ch as int - '0' as int == d
  {
    ('0' as int + d) as char
  }

  /** `str(n)` for a natural number, in decimal. */
  function NatToString(n: nat): (r: string)
    ensures r != [] && (forall k :: 0 <= k < |r| ==> '0' <= r[k] <= '9')
    ensures r[0] == '0' ==> n == 0
  {
    if n < 10 then [DigitChar(n)] else NatToString(n / 10) + [DigitChar(n % 10)]
  }

  /** `str(i)` for an integer, in decimal with a leading '-' when negative. */
  function IntToString(i: int): (r: string)
    ensures r != [] && (r[0] == '-' <==> i < 0)
  {
    if i < 0 then "-" + NatToString(-i) else NatToString(i)
  }

  /** The value of a string of decimal digits, read as `int()` reads it. */
  function DecimalValue(digits: string): nat
  {
    if digits == [] then 0
    else
      var d := digits[|digits| - 1] as int - '0' as int;
      DecimalValue(digits[..|digits| - 1]) * 10 + (if 0 <= d < 10 then d else 0)
  }

  /** `int(s)` for a string made by `str`: an optional '-' and decimal digits. */
  function ParseInt(s: string): int
  {
    if s != [] && s[0] == '-' then -(DecimalValue(s[1..]) as int) else DecimalValue(s)
  }

  lemma {:induction false} NatToStringRoundTrip(n: nat)
    ensures DecimalValue(NatToString(n)) == n
  {
    if n >= 10 {
      NatToStringRoundTrip(n / 10);
      var r := NatToString(n);
      assert r[..|r| - 1] == NatToString(n / 10);
    }
  }

  /** `int(str(i)) == i` for every integer. */
  lemma IntToStringRoundTrip(i: int)
    ensures ParseInt(IntToString(i)) == i
  {
    if i < 0 {
      NatToStringRoundTrip(-i);
      assert IntToString(i)[1..] == NatToString(-i);
    } else {
      NatToStringRoundTrip(i);
    }
  }
}
