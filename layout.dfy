/** How text assembled with `join("\n")` and `join("\n\n")` falls apart into
    lines again. The renderer and the prompt builder both lay out their output
    this way; these lemmas let their layouts be stated line by line. */
module Layout {
  import opened Text

  /** Text on one line: it holds no line feed. */
  predicate OneLine(s: string) {
    '\n' !in s
  }

  /** A one-line text is its own single line. */
  lemma LinesOfOneLine(s: string)
    requires OneLine(s)
    ensures Lines(s) == [s]
  {
    SplitNoSeparator(s, '\n');
  }

  /** A join of one-line parts with a one-line separator is on one line. */
  lemma {:induction false} JoinOneLine(xs: seq<string>, sep: string)
    requires OneLine(sep)
    requires forall k :: 0 <= k < |xs| ==> OneLine(xs[k])
    ensures OneLine(Join(xs, sep))
  {
    if |xs| > 1 {
      JoinOneLine(xs[1..], sep);
      assert Join(xs, sep) == xs[0] + sep + Join(xs[1..], sep);
    }
  }

  /** The lines of each chunk, one after another. */
  function LinesOfAll(cs: seq<string>): (r: seq<string>)
    requires |cs| >= 1
  {
    if |cs| == 1 then Lines(cs[0]) else Lines(cs[0]) + LinesOfAll(cs[1..])
  }

  /** Chunks joined with line feeds have, as lines, the lines of each chunk. */
  lemma {:induction false} LinesOfJoin(cs: seq<string>)
    requires |cs| >= 1
    ensures Lines(Join(cs, "\n")) == LinesOfAll(cs)
  {
    if |cs| > 1 {
      LinesOfJoin(cs[1..]);
      SplitAppend(cs[0], '\n', Join(cs[1..], "\n"));
    }
  }

  lemma {:induction false} LinesOfAllAppend(a: seq<string>, b: seq<string>)
    requires |a| >= 1 && |b| >= 1
    ensures LinesOfAll(a + b) == LinesOfAll(a) + LinesOfAll(b)
  {
    if |a| == 1 {
      assert (a + b)[1..] == b;
    } else {
      assert (a + b)[1..] == a[1..] + b;
      LinesOfAllAppend(a[1..], b);
    }
  }

  /** Chunks that are single lines are their own lines. */
  lemma {:induction false} LinesOfAllOneLine(cs: seq<string>)
    requires |cs| >= 1
    requires forall k :: 0 <= k < |cs| ==> OneLine(cs[k])
    ensures LinesOfAll(cs) == cs
  {
    LinesOfOneLine(cs[0]);
    if |cs| > 1 {
      LinesOfAllOneLine(cs[1..]);
      assert [cs[0]] + cs[1..] == cs;
    }
  }

  /** The empty text is one empty line. */
  lemma EmptyLines()
    ensures Lines("") == [""] && LinesOfAll([""]) == [""]
  {
    LinesOfOneLine("");
  }

  /** A chunk ahead of others contributes its own lines first. */
  lemma LinesOfAllCons(x: string, rest: seq<string>)
    requires |rest| >= 1
    ensures LinesOfAll([x] + rest) == Lines(x) + LinesOfAll(rest)
  {
    assert ([x] + rest)[1..] == rest;
  }

  /** An empty line, a one-line heading and a body, ahead of further chunks:
      the empty line, the heading, the body's lines, then the rest. */
  lemma HeadedLines(h: string, body: string, rest: seq<string>)
    requires OneLine(h) && |rest| >= 1
    ensures LinesOfAll(["", h, body] + rest) == ["", h] + (Lines(body) + LinesOfAll(rest))
  {
    LinesOfOneLine("");
    HeadedAfter("", h, body, rest);
  }

  lemma HeadedAfter(e: string, h: string, body: string, rest: seq<string>)
    requires OneLine(e) && OneLine(h) && |rest| >= 1
    ensures LinesOfAll([e, h, body] + rest) == [e, h] + (Lines(body) + LinesOfAll(rest))
  {
    ConsThree(e, h, body, rest);
    LinesOfAllCons(body, rest);
    LinesOfAllCons(h, [body] + rest);
    LinesOfAllCons(e, [h] + ([body] + rest));
    LinesOfOneLine(e);
    LinesOfOneLine(h);
    ConsTwo(e, h, Lines(body) + LinesOfAll(rest));
  }

  lemma ConsThree<T>(a: T, b: T, c: T, rest: seq<T>)
    ensures [a, b, c] + rest == [a] + ([b] + ([c] + rest))
  {
  }

  lemma ConsTwo<T>(a: T, b: T, rest: seq<T>)
    ensures [a] + ([b] + rest) == [a, b] + rest
  {
  }

  /** The same, as the last chunks. */
  lemma HeadedLast(h: string, body: string)
    requires OneLine(h)
    ensures LinesOfAll(["", h, body]) == ["", h] + Lines(body)
  {
    EmptyLines();
    LinesOfOneLine(h);
    assert ["", h, body] == [""] + ([h] + [body]);
    LinesOfAllCons(h, [body]);
    LinesOfAllCons("", [h] + [body]);
  }

  /** Blocks of lines set one under the other with a blank line between
      neighbours; no blocks at all leave a single empty line. */
  function Stacked(ls: seq<seq<string>>): (r: seq<string>)
    ensures |r| >= 1
  {
    if |ls| == 0 then [""]
    else if |ls| == 1 then (if ls[0] == [] then [""] else ls[0])
    else ls[0] + [""] + Stacked(ls[1..])
  }

  /** `blocks.join("\n\n")` as lines: each block's lines, with an empty line
      between consecutive blocks. */
  lemma {:induction false} LinesJoinBlank(bs: seq<string>, ls: seq<seq<string>>)
    requires |ls| == |bs|
    requires forall k :: 0 <= k < |bs| ==> Lines(bs[k]) == ls[k]
    ensures Lines(Join(bs, "\n\n")) == Stacked(ls)
  {
    if |bs| > 1 {
      var j := Join(bs[1..], "\n\n");
      forall k | 0 <= k < |bs[1..]|
        ensures Lines(bs[1..][k]) == ls[1..][k]
      {
        assert bs[1..][k] == bs[k + 1] && ls[1..][k] == ls[k + 1];
      }
      LinesJoinBlank(bs[1..], ls[1..]);
      JoinBlankCons(bs);
      SplitAppend(bs[0], '\n', ['\n'] + j);
      SplitLeading('\n', j);
      assert Lines(bs[0]) == ls[0];
      ConsAssoc(ls[0], "", Stacked(ls[1..]));
    }
  }

  lemma JoinBlankCons(bs: seq<string>)
    requires |bs| > 1
    ensures Join(bs, "\n\n") == bs[0] + ['\n'] + (['\n'] + Join(bs[1..], "\n\n"))
  {
  }

  /** A separator at the start gives an empty first part. */
  lemma SplitLeading(c: char, b: string)
    ensures Split([c] + b, c) == [""] + Split(b, c)
  {
    assert ([c] + b)[1..] == b;
  }

  lemma ConsAssoc<T>(a: seq<T>, x: T, b: seq<T>)
    ensures a + ([x] + b) == a + [x] + b
  {
  }

  /** The blocks of lines one after another. */
  function Flatten(ls: seq<seq<string>>): seq<string> {
    if ls == [] then [] else ls[0] + Flatten(ls[1..])
  }

  /** Chunks whose lines are given blocks have, together, those blocks' lines. */
  lemma {:induction false} LinesOfAllFlatten(cs: seq<string>, ls: seq<seq<string>>)
    requires |cs| >= 1 && |ls| == |cs|
    requires forall k :: 0 <= k < |cs| ==> Lines(cs[k]) == ls[k]
    ensures LinesOfAll(cs) == Flatten(ls)
  {
    if |cs| == 1 {
      assert Flatten(ls[1..]) == [];
    } else {
      LinesOfAllFlatten(cs[1..], ls[1..]);
    }
  }

  /** `a | b | c` splits at its bars into the fields with their spaces. */
  lemma SplitThreeBarred(a: string, b: string, c: string)
    requires '|' !in a && '|' !in b && '|' !in c
    ensures Split(a + " | " + b + " | " + c, '|') == [a + " ", " " + b + " ", " " + c]
  {
    var x, y, z := a + " ", " " + b + " ", " " + c;
    BarGroups(a, b, c);
    NoBarSpaced(a, b, c);
    SplitAppend(y, '|', z);
    SplitAppend(x, '|', y + ['|'] + z);
    SplitNoSeparator(x, '|');
    SplitNoSeparator(y, '|');
    SplitNoSeparator(z, '|');
  }

  lemma BarGroups(a: string, b: string, c: string)
    ensures a + " | " + b + " | " + c == (a + " ") + ['|'] + ((" " + b + " ") + ['|'] + (" " + c))
  {
    assert " | " == " " + ['|'] + " ";
  }

  lemma NoBarSpaced(a: string, b: string, c: string)
    requires '|' !in a && '|' !in b && '|' !in c
    ensures '|' !in a + " " && '|' !in " " + b + " " && '|' !in " " + c
  {
  }

  /** `a | b | c | d` splits at its bars into the fields with their spaces. */
  lemma SplitFourBarred(a: string, b: string, c: string, d: string)
    requires '|' !in a && '|' !in b && '|' !in c && '|' !in d
    ensures Split(a + " | " + b + " | " + c + " | " + d, '|') == [a + " ", " " + b + " ", " " + c + " ", " " + d]
  {
    BarGroupsFour(a, b, c, d);
    NoBarSpaced(a, b, c);
    NoBarSpaced(a, c, d);
    SplitFourParts(a + " ", " " + b + " ", " " + c + " ", " " + d);
  }

  /** Four bar-free parts with a bar between neighbours split back into them. */
  lemma SplitFourParts(x: string, y: string, z: string, w: string)
    requires '|' !in x && '|' !in y && '|' !in z && '|' !in w
    ensures Split(x + ['|'] + (y + ['|'] + (z + ['|'] + w)), '|') == [x, y, z, w]
  {
    var t := z + ['|'] + w;
    SplitNoSeparator(z, '|');
    SplitNoSeparator(w, '|');
    SplitAppend(z, '|', w);
    SplitNoSeparator(y, '|');
    SplitAppend(y, '|', t);
    SplitNoSeparator(x, '|');
    SplitAppend(x, '|', y + ['|'] + t);
  }

  lemma BarGroupsFour(a: string, b: string, c: string, d: string)
    ensures a + " | " + b + " | " + c + " | " + d
      == (a + " ") + ['|'] + ((" " + b + " ") + ['|'] + ((" " + c + " ") + ['|'] + (" " + d)))
  {
    BarGroups(a + " | " + b, c, d);
    BarGroups(a, b, c + " ");
    assert " " + (c + " ") == " " + c + " ";
  }
}
