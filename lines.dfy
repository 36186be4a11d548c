/**
 * The line filters the AI clients apply to a generated fix (ai/client.go and
 * ai/openai_client.go): split the text at '\n', keep the lines a predicate accepts, in
 * order, and join them again with '\n'.
 */
module Lines {
  import Strs

  /** The lines that `keep` accepts, in their order. */
  function Filter(lines: seq<string>, keep: string -> bool): (r: seq<string>)
    ensures |r| <= |lines|
    ensures forall k :: 0 <= k < |r| ==> keep(r[k])
  {
    if lines == [] then []
    else if keep(lines[0]) then [lines[0]] + Filter(lines[1..], keep)
    else Filter(lines[1..], keep)
  }

  function FilterText(text: string, keep: string -> bool): string
  {
    Strs.Join(Filter(Strs.Split(text, '\n'), keep), '\n')
  }

  /** Filtering one more line keeps it or not, after what was kept before. */
  lemma {:induction false} FilterAppend(lines: seq<string>, line: string, keep: string -> bool)
    ensures Filter(lines + [line], keep) == Filter(lines, keep) + (if keep(line) then [line] else [])
  {
    if lines != [] {
      assert (lines + [line])[1..] == lines[1..] + [line];
      FilterAppend(lines[1..], line, keep);
    }
  }

  /** Every kept line is one of the input lines: filtering only removes. */
  lemma {:induction false} FilterSubset(lines: seq<string>, keep: string -> bool, k: nat)
    requires k < |Filter(lines, keep)|
    ensures Filter(lines, keep)[k] in lines
  {
    if lines != [] {
      if keep(lines[0]) {
        if k > 0 {
          FilterSubset(lines[1..], keep, k - 1);
        }
      } else {
        FilterSubset(lines[1..], keep, k);
      }
    }
  }

  /** A line is kept exactly when it occurs and is accepted. */
  lemma {:induction false} FilterMembers(lines: seq<string>, keep: string -> bool, line: string)
    ensures line in Filter(lines, keep) <==> line in lines && keep(line)
  {
    if lines != [] {
      FilterMembers(lines[1..], keep, line);
      assert lines == [lines[0]] + lines[1..];
    }
  }

  /** Lines that are all accepted are kept as they are. */
  lemma {:induction false} FilterKeepsAccepted(lines: seq<string>, keep: string -> bool)
    requires forall k :: 0 <= k < |lines| ==> keep(lines[k])
    ensures Filter(lines, keep) == lines
  {
    if lines != [] {
      FilterKeepsAccepted(lines[1..], keep);
    }
  }

  /** Filtering twice is filtering once. */
  lemma FilterIdempotent(lines: seq<string>, keep: string -> bool)
    ensures Filter(Filter(lines, keep), keep) == Filter(lines, keep)
  {
    FilterKeepsAccepted(Filter(lines, keep), keep);
  }

  /** No kept line contains a newline, since every line came from splitting at '\n'. */
  lemma FilterSplitNoNewline(text: string, keep: string -> bool)
    ensures forall k :: 0 <= k < |Filter(Strs.Split(text, '\n'), keep)| ==>
      '\n' !in Filter(Strs.Split(text, '\n'), keep)[k]
  {
    var lines := Strs.Split(text, '\n');
    forall k | 0 <= k < |Filter(lines, keep)|
      ensures '\n' !in Filter(lines, keep)[k]
    {
      FilterSubset(lines, keep, k);
    }
  }

  /** The lines of a filtered text are exactly the kept lines, when any are kept. */
  lemma FilterTextLines(text: string, keep: string -> bool)
    requires Filter(Strs.Split(text, '\n'), keep) != []
    ensures Strs.Split(FilterText(text, keep), '\n') == Filter(Strs.Split(text, '\n'), keep)
  {
    FilterSplitNoNewline(text, keep);
    Strs.SplitJoin(Filter(Strs.Split(text, '\n'), keep), '\n');
  }

  /** Filtering a text twice is filtering it once. When nothing is kept the text is
      empty, and an empty text filters to the empty text whatever `keep` says. */
  lemma FilterTextIdempotent(text: string, keep: string -> bool)
    ensures FilterText(FilterText(text, keep), keep) == FilterText(text, keep)
  {
    var kept := Filter(Strs.Split(text, '\n'), keep);
    if kept == [] {
      assert FilterText(text, keep) == "";
      assert Strs.Split("", '\n') == [""];
    } else {
      FilterTextLines(text, keep);
      FilterIdempotent(Strs.Split(text, '\n'), keep);
    }
  }

  /** Every line of a filtered text is accepted. */
  lemma FilterTextAccepted(text: string, keep: string -> bool, line: string)
    requires Filter(Strs.Split(text, '\n'), keep) != []
    requires line in Strs.Split(FilterText(text, keep), '\n')
    ensures keep(line) && line in Strs.Split(text, '\n')
  {
    FilterTextLines(text, keep);
    FilterMembers(Strs.Split(text, '\n'), keep, line);
  }
}
