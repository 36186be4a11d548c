/**
 * The few operations of Go's strings package the core uses, over byte strings:
 * TrimSpace, IndexRune, HasPrefix, Contains, Split and Join on one separator byte,
 * ReplaceAll of one byte, ToLower. Whitespace and case are the ASCII ones.
 */
module Strs {
  import opened Wrappers

  /** The bytes strings.TrimSpace removes: tab, newline, vertical tab, form feed, CR, space. */
  predicate IsSpace(c: char)
  {
    c == ' ' || '\t' <= c <= '\r'  // tab, newline, vertical tab, form feed, carriage return
  }

  function TrimLeft(s: string): (r: string)
    ensures |r| <= |s|
    ensures r == [] || !IsSpace(r[0])
  {
    if s != [] && IsSpace(s[0]) then TrimLeft(s[1..]) else s
  }

  function TrimRight(s: string): (r: string)
    ensures |r| <= |s|
    ensures r == [] || !IsSpace(r[|r| - 1])
  {
    if s != [] && IsSpace(s[|s| - 1]) then TrimRight(s[..|s| - 1]) else s
  }

  /** strings.TrimSpace: s without its leading and trailing whitespace. */
  function TrimSpace(s: string): (r: string)
    ensures r == [] || (!IsSpace(r[0]) && !IsSpace(r[|r| - 1]))
    ensures |r| <= |s|
  {
    var l := TrimLeft(s);
    TrimRightPrefix(l);
    TrimRight(l)
  }

  lemma {:induction false} TrimRightPrefix(s: string)
    ensures TrimRight(s) == s[..|TrimRight(s)|]
  {
    if s != [] && IsSpace(s[|s| - 1]) {
      TrimRightPrefix(s[..|s| - 1]);
    }
  }

  lemma TrimRightAppendSpace(a: string, c: char)
    requires IsSpace(c)
    ensures TrimRight(a + [c]) == TrimRight(a)
  {
    assert (a + [c])[..|a + [c]| - 1] == a;
  }

  lemma TrimRightKeeps(a: string)
    requires a != [] && !IsSpace(a[|a| - 1])
    ensures TrimRight(a) == a
  {
  }

  lemma TrimLeftKeeps(a: string)
    requires a != [] && !IsSpace(a[0])
    ensures TrimLeft(a) == a
  {
  }

  predicate AllSpace(s: string)
  {
    forall i :: 0 <= i < |s| ==> IsSpace(s[i])
  }

  /** Trimming whitespace around a string whose own ends are not whitespace. */
  lemma TrimSpaceOfPadded(pre: string, a: string, post: string)
    requires a != [] && !IsSpace(a[0]) && !IsSpace(a[|a| - 1])
    requires AllSpace(pre) && AllSpace(post)
    ensures TrimSpace(pre + a + post) == a
  {
    TrimLeftPad(pre, a + post);
    assert pre + a + post == pre + (a + post);
    TrimRightPad(a, post);
  }

  /** Trimming twice is trimming once. */
  lemma TrimSpaceIdempotent(s: string)
    ensures TrimSpace(TrimSpace(s)) == TrimSpace(s)
  {
    var t := TrimSpace(s);
    if t != [] {
      assert [] + t + [] == t;
      TrimSpaceOfPadded([], t, []);
    }
  }

  lemma {:induction false} TrimLeftPad(pre: string, b: string)
    requires AllSpace(pre)
    requires b != [] && !IsSpace(b[0])
    ensures TrimLeft(pre + b) == b
  {
    if pre == [] {
      assert pre + b == b;
    } else {
      assert (pre + b)[1..] == pre[1..] + b;
      TrimLeftPad(pre[1..], b);
    }
  }

  lemma {:induction false} TrimRightPad(a: string, pad: string)
    requires a != [] && !IsSpace(a[|a| - 1])
    requires AllSpace(pad)
    ensures TrimRight(a + pad) == a
  {
    if pad == [] {
      assert a + pad == a;
      TrimRightKeeps(a);
    } else {
      var p := pad[..|pad| - 1];
      assert a + pad == (a + p) + [pad[|pad| - 1]];
      TrimRightAppendSpace(a + p, pad[|pad| - 1]);
      TrimRightPad(a, p);
    }
  }

  lemma {:induction false} TrimSpaceEmpty(pad: string)
    requires AllSpace(pad)
    ensures TrimSpace(pad) == [] && TrimLeft(pad) == []
  {
    if pad != [] {
      TrimSpaceEmpty(pad[1..]);
    }
  }

  /** Only an all-blank string trims to nothing from the left. */
  lemma {:induction false} TrimLeftEmpty(s: string)
    requires TrimLeft(s) == []
    ensures AllSpace(s)
  {
    if s != [] {
      TrimLeftEmpty(s[1..]);
    }
  }

  /** What TrimLeft keeps is a suffix of s, and what it drops is blank. */
  lemma {:induction false} TrimLeftSuffix(s: string)
    ensures TrimLeft(s) == s[|s| - |TrimLeft(s)|..]
    ensures AllSpace(s[..|s| - |TrimLeft(s)|])
  {
    if s != [] && IsSpace(s[0]) {
      TrimLeftSuffix(s[1..]);
      var k := |s[1..]| - |TrimLeft(s[1..])|;
      assert s[1..][k..] == s[k + 1..];
      assert s[..k + 1] == [s[0]] + s[1..][..k];
    }
  }

  /** What TrimRight drops is blank. */
  lemma {:induction false} TrimRightBlank(s: string)
    ensures |TrimRight(s)| <= |s| && AllSpace(s[|TrimRight(s)|..])
  {
    if s != [] && IsSpace(s[|s| - 1]) {
      var p := s[..|s| - 1];
      TrimRightBlank(p);
      assert s[|TrimRight(p)|..] == p[|TrimRight(p)|..] + [s[|s| - 1]];
    }
  }

  /**
   * strings.TrimSpace keeps the slice s[i..i + |r|] between a blank prefix and a blank
   * suffix, and the slice neither starts nor ends with white space. With
   * TrimSpaceOfPadded, this fixes the result for every input.
   */
  lemma TrimSpaceSlice(s: string)
    ensures var r := TrimSpace(s); var i := |s| - |TrimLeft(s)|;
      && i + |r| <= |s| && r == s[i..i + |r|]
      && AllSpace(s[..i]) && AllSpace(s[i + |r|..])
      && (r == [] || (!IsSpace(r[0]) && !IsSpace(r[|r| - 1])))
  {
    var l := TrimLeft(s);
    var i := |s| - |l|;
    TrimLeftSuffix(s);
    TrimRightPrefix(l);
    TrimRightBlank(l);
    var r := TrimRight(l);
    assert r == TrimSpace(s);
    assert l[..|r|] == s[i..i + |r|];
    assert l[|r|..] == s[i + |r|..];
  }

  /** strings.IndexRune for one byte: the first position of c in s. */
  function IndexOf(s: string, c: char): (r: Option<nat>)
    ensures r.Some? ==> r.value < |s|
  {
    if s == [] then None
    else if s[0] == c then Some(0)
    else
      var k := IndexOf(s[1..], c);
      if k.None? then None else Some(k.value + 1)
  }

  /** The first occurrence of c is right after a prefix that does not contain it. */
  lemma {:induction false} IndexOfAfter(a: string, c: char, b: string)
    requires c !in a
    ensures IndexOf(a + [c] + b, c) == Some(|a|)
  {
    if a != [] {
      assert (a + [c] + b)[1..] == a[1..] + [c] + b;
      IndexOfAfter(a[1..], c, b);
    }
  }

  /** IndexOf finds nothing exactly when c does not occur. */
  lemma {:induction false} IndexOfAbsent(s: string, c: char)
    ensures IndexOf(s, c).None? <==> c !in s
  {
    if s != [] && s[0] != c {
      IndexOfAbsent(s[1..], c);
      assert s == [s[0]] + s[1..];
    }
  }

  predicate HasPrefix(s: string, prefix: string)
  {
    |prefix| <= |s| && s[..|prefix|] == prefix
  }

  /** strings.Contains: sub occurs at some position of s. */
  predicate Contains(s: string, sub: string)
  {
    HasPrefix(s, sub) || (s != [] && Contains(s[1..], sub))
  }

  /** strings.Split(s, [sep]): the pieces between separators, at least one. */
  function Split(s: string, sep: char): (r: seq<string>)
    ensures |r| >= 1
    ensures forall k :: 0 <= k < |r| ==> sep !in r[k]
  {
    if s == [] then [""]
    else if s[0] == sep then [""] + Split(s[1..], sep)
    else
      var rest := Split(s[1..], sep);
      [[s[0]] + rest[0]] + rest[1..]
  }

  /** strings.Join(parts, [sep]). */
  function Join(parts: seq<string>, sep: char): string
  {
    if |parts| == 0 then ""
    else if |parts| == 1 then parts[0]
    else parts[0] + [sep] + Join(parts[1..], sep)
  }

  lemma {:induction false} JoinSplit(s: string, sep: char)
    ensures Join(Split(s, sep), sep) == s
  {
    if s == [] {
    } else if s[0] == sep {
      JoinSplit(s[1..], sep);
      var rest := Split(s[1..], sep);
      assert Split(s, sep) == [""] + rest;
      assert (Split(s, sep))[1..] == rest;
    } else {
      JoinSplit(s[1..], sep);
      var rest := Split(s[1..], sep);
      var r := Split(s, sep);
      assert r[1..] == rest[1..];
      if |rest| == 1 {
      } else {
        assert Join(rest, sep) == rest[0] + [sep] + Join(rest[1..], sep);
      }
    }
  }

  /** A piece without the separator splits to itself. */
  lemma {:induction false} SplitNoSep(a: string, sep: char)
    requires sep !in a
    ensures Split(a, sep) == [a]
  {
    if a != [] {
      SplitNoSep(a[1..], sep);
      assert [a[0]] + a[1..] == a;
    }
  }

  lemma {:induction false} SplitPiece(a: string, sep: char, b: string)
    requires sep !in a
    ensures Split(a + [sep] + b, sep) == [a] + Split(b, sep)
  {
    if a == [] {
      assert a + [sep] + b == [sep] + b;
      assert ([sep] + b)[1..] == b;
    } else {
      var s := a + [sep] + b;
      assert s[1..] == a[1..] + [sep] + b;
      SplitPiece(a[1..], sep, b);
      assert [a[0]] + a[1..] == a;
    }
  }

  /** Splitting undoes joining pieces that do not contain the separator. */
  lemma {:induction false} SplitJoin(parts: seq<string>, sep: char)
    requires |parts| >= 1
    requires forall k :: 0 <= k < |parts| ==> sep !in parts[k]
    ensures Split(Join(parts, sep), sep) == parts
  {
    if |parts| == 1 {
      SplitNoSep(parts[0], sep);
    } else {
      SplitJoin(parts[1..], sep);
      SplitPiece(parts[0], sep, Join(parts[1..], sep));
      assert [parts[0]] + parts[1..] == parts;
    }
  }

  /** strings.ReplaceAll(s, [from], [to]). */
  function ReplaceByte(s: string, from: char, to: char): (r: string)
    ensures |r| == |s|
    ensures forall i :: 0 <= i < |s| ==> r[i] == (if s[i] == from then to else s[i])
  {
    if s == [] then [] else [if s[0] == from then to else s[0]] + ReplaceByte(s[1..], from, to)
  }

  function LowerByte(c: char): char
  {
    if 'A' <= c <= 'Z' then (c as int + 32) as char else c
  }

  /** strings.ToLower on ASCII letters. */
  function ToLower(s: string): (r: string)
    ensures |r| == |s|
    ensures forall i :: 0 <= i < |s| ==> r[i] == LowerByte(s[i])
  {
    if s == [] then [] else [LowerByte(s[0])] + ToLower(s[1..])
  }
}
