/** The two regular expressions the resume parser matches against single
    lines, as backtracking matchers that return the first match in the order a
    JavaScript engine tries them.

    Header patterns: P(0) = `(.+)` and P(n) = `(.+?)\s*\|\s*` P(n-1), so the
    three-field header regex `(.+?)\s*\|\s*(.+?)\s*\|\s*(.+)` is P(2) and the
    four-field one is P(3). Label patterns: a literal key followed by `\s*(.+)`.
    The subject is always a single line (no `\n`), so `.` matches any character. */
module LazyRegex {
  import opened Wrappers
  import opened Text

  /** Length of the white-space run at the start of `u`: what a greedy `\s*` takes first. */
  function WsLen(u: string): (n: nat)
    ensures n <= |u| && IsBlank(u[..n]) && (n == |u| || !IsSpace(u[n]))
  {
    if |u| > 0 && IsSpace(u[0]) then 1 + WsLen(u[1..]) else 0
  }

  /** Match of P(n) anchored at the start of `t`: its n + 1 capture groups, or None. */
  function MatchP(t: string, n: nat): (r: Option<seq<string>>)
    ensures r.Some? ==> |r.value| == n + 1
    decreases n, 3, 0
  {
    if n == 0 then (if |t| > 0 then Some([t]) else None)
    else LazyGroup(t, n, 1)
  }

  /** `(.+?)` then `\s*\|\s*` P(n-1): the lazy group tries lengths e, e + 1, ... in turn. */
  function LazyGroup(t: string, n: nat, e: nat): (r: Option<seq<string>>)
    requires 1 <= n && 1 <= e
    ensures r.Some? ==> |r.value| == n + 1
    decreases n, 2, |t| + 1 - e
  {
    if e > |t| then None
    else
      match AfterGroup(t[e..], n)
      case Some(rest) => Some([t[..e]] + rest)
      case None => LazyGroup(t, n, e + 1)
  }

  /** `\s*\|\s*` P(n-1) anchored at the start of `u`. The greedy `\s*` before the
      bar can only succeed with its longest run: every shorter run is followed by
      white space, not by `|`. */
  function AfterGroup(u: string, n: nat): (r: Option<seq<string>>)
    requires 1 <= n
    ensures r.Some? ==> |r.value| == n
    decreases n, 1, 0
  {
    var w := WsLen(u);
    if w < |u| && u[w] == '|' then
      var v := u[w + 1..];
      SpaceThen(v, n - 1, WsLen(v))
    else None
  }

  /** `\s*` P(m) anchored at the start of `v`, the `\s*` holding `j` characters and
      giving them back one at a time. */
  function SpaceThen(v: string, m: nat, j: nat): (r: Option<seq<string>>)
    requires j <= |v|
    ensures r.Some? ==> |r.value| == m + 1
    decreases m + 1, 0, j
  {
    match MatchP(v[j..], m)
    case Some(g) => Some(g)
    case None => if j == 0 then None else SpaceThen(v, m, j - 1)
  }

  /** `h.match(P(n))`: the first start position from `p` on where P(n) matches. */
  function Search(h: string, n: nat, p: nat): (r: Option<seq<string>>)
    requires p <= |h|
    ensures r.Some? ==> |r.value| == n + 1
    decreases |h| - p
  {
    match MatchP(h[p..], n)
    case Some(g) => Some(g)
    case None => if p == |h| then None else Search(h, n, p + 1)
  }

  /** `line.match(/<key>\s*(.+)/)` from position `p` on: the capture group of
      the first match, or None. */
  function LabelSearch(line: string, key: string, p: nat): (r: Option<string>)
    requires |key| > 0
    decreases |line| - p
  {
    if p + |key| > |line| then None
    else if OccursAt(line, key, p) then
      var u := line[p + |key|..];
      match SpaceThen(u, 0, WsLen(u))
      case Some(g) => Some(g[0])
      case None => LabelSearch(line, key, p + 1)
    else LabelSearch(line, key, p + 1)
  }

  // ---------------------------------------------------------------------------
  // A header with fewer than n bars never matches P(n).

  lemma {:induction false} CountCharSuffix(s: string, i: nat, c: char)
    requires i <= |s|
    ensures CountChar(s[i..], c) <= CountChar(s, c)
  {
    assert s == s[..i] + s[i..];
    CountCharAppend(s[..i], s[i..], c);
  }

  lemma {:induction false} MatchPNeedsBars(t: string, n: nat)
    requires MatchP(t, n).Some?
    ensures CountChar(t, '|') >= n
    decreases n, 3, 0
  {
    if n > 0 {
      LazyGroupNeedsBars(t, n, 1);
    }
  }

  lemma {:induction false} LazyGroupNeedsBars(t: string, n: nat, e: nat)
    requires 1 <= n && 1 <= e
    requires LazyGroup(t, n, e).Some?
    ensures CountChar(t, '|') >= n
    decreases n, 2, |t| + 1 - e
  {
    if AfterGroup(t[e..], n).Some? {
      AfterGroupNeedsBars(t[e..], n);
      CountCharSuffix(t, e, '|');
    } else {
      LazyGroupNeedsBars(t, n, e + 1);
    }
  }

  lemma {:induction false} AfterGroupNeedsBars(u: string, n: nat)
    requires 1 <= n
    requires AfterGroup(u, n).Some?
    ensures CountChar(u, '|') >= n
    decreases n, 1, 0
  {
    var w := WsLen(u);
    assert w < |u| && u[w] == '|';
    SpaceThenNeedsBars(u[w + 1..], n - 1, WsLen(u[w + 1..]));
    CountAcrossBar(u, w);
  }

  /** The bars of a text: those before a given bar, that bar, and those after it. */
  lemma CountAcrossBar(u: string, w: nat)
    requires w < |u| && u[w] == '|'
    ensures CountChar(u, '|') == CountChar(u[..w], '|') + 1 + CountChar(u[w + 1..], '|')
  {
    var v := u[w + 1..];
    assert u == u[..w] + ([u[w]] + v);
    CountCharAppend(u[..w], [u[w]] + v, '|');
    CountCharAppend([u[w]], v, '|');
    assert [u[w]][1..] == [];
  }

  lemma {:induction false} SpaceThenNeedsBars(v: string, m: nat, j: nat)
    requires j <= |v|
    requires SpaceThen(v, m, j).Some?
    ensures CountChar(v, '|') >= m
    decreases m + 1, 0, j
  {
    if MatchP(v[j..], m).Some? {
      MatchPNeedsBars(v[j..], m);
      CountCharSuffix(v, j, '|');
    } else {
      SpaceThenNeedsBars(v, m, j - 1);
    }
  }

  /** A line with fewer than n bars does not match P(n) anywhere. */
  lemma {:induction false} SearchNeedsBars(h: string, n: nat, p: nat)
    requires p <= |h|
    requires CountChar(h, '|') < n
    ensures Search(h, n, p).None?
    decreases |h| - p
  {
    if MatchP(h[p..], n).Some? {
      MatchPNeedsBars(h[p..], n);
      CountCharSuffix(h, p, '|');
    } else if p < |h| {
      SearchNeedsBars(h, n, p + 1);
    }
  }

  // ---------------------------------------------------------------------------
  // A header whose first n + 1 bar-separated fields are non-blank matches P(n)
  // with those fields as its groups, up to surrounding white space.

  lemma {:induction false} TrimBlankPrefix(w: string, s: string)
    requires IsBlank(w)
    ensures Trim(w + s) == Trim(s)
  {
    TrimStartBlankPrefix(w, s);
  }

  lemma TrimOfTrimEnd(s: string)
    ensures Trim(TrimEnd(s)) == Trim(s)
  {
    var e := TrimEnd(s);
    TrimEndSpec(s);
    assert s == e + s[|e|..];
    TrimEndBlankSuffix(TrimStart(e), s[|e|..]);
    TrimStartAppendKeepsEnd(e, s[|e|..]);
  }

  /** Removing leading white space commutes with appending blank text. */
  lemma {:induction false} TrimStartAppendKeepsEnd(e: string, w: string)
    requires IsBlank(w)
    ensures TrimEnd(TrimStart(e + w)) == TrimEnd(TrimStart(e))
  {
    if |e| > 0 && IsSpace(e[0]) {
      assert (e + w)[1..] == e[1..] + w;
      TrimStartAppendKeepsEnd(e[1..], w);
    } else if |e| > 0 {
      assert TrimStart(e + w) == e + w;
      TrimEndBlankSuffix(e, w);
    } else {
      assert e + w == w;
      TrimStartBlank(w);
    }
  }

  /** For e before the end of the field's trimmed text, the lazy group is too
      short: after the white space that follows comes a field character, not `|`. */
  lemma AfterGroupTooShort(s0: string, r: string, n: nat, e: nat)
    requires 1 <= n && '|' !in s0
    requires e < |TrimEnd(s0)|
    ensures AfterGroup((s0 + "|" + r)[e..], n).None?
  {
    var t := s0 + "|" + r;
    var c := |TrimEnd(s0)|;
    TrimEndSpec(s0);
    var u := t[e..];
    var w := WsLen(u);
    assert u[c - 1 - e] == s0[c - 1];
    assert !IsSpace(u[c - 1 - e]);
    assert forall i :: 0 <= i < w ==> u[..w][i] == u[i];
    assert w <= c - 1 - e;
    assert u[w] == s0[e + w];
  }

  lemma {:induction false} LazyGroupSkips(s0: string, r: string, n: nat, e: nat)
    requires 1 <= n && 1 <= e && '|' !in s0
    requires e <= |TrimEnd(s0)|
    ensures LazyGroup(s0 + "|" + r, n, e) == LazyGroup(s0 + "|" + r, n, |TrimEnd(s0)|)
    decreases |TrimEnd(s0)| - e
  {
    if e < |TrimEnd(s0)| {
      AfterGroupTooShort(s0, r, n, e);
      LazyGroupSkips(s0, r, n, e + 1);
    }
  }

  lemma {:induction false} WsLenBlankPrefix(w: string, s: string)
    requires IsBlank(w) && |s| > 0 && !IsSpace(s[0])
    ensures WsLen(w + s) == |w|
  {
    if |w| > 0 {
      assert (w + s)[1..] == w[1..] + s;
      WsLenBlankPrefix(w[1..], s);
    } else {
      assert w + s == s;
    }
  }

  /** The greedy `\s*` at the start of `r` removes what `TrimStart` removes. */
  lemma {:induction false} WsLenTrimStart(r: string)
    ensures r[WsLen(r)..] == TrimStart(r)
  {
    if |r| > 0 && IsSpace(r[0]) {
      WsLenTrimStart(r[1..]);
      assert r[1..][WsLen(r[1..])..] == r[WsLen(r)..];
    } else {
      assert r[0..] == r;
    }
  }

  lemma TrimStartNonBlank(x: string)
    requires !IsBlank(x)
    ensures TrimStart(x) != [] && !IsSpace(TrimStart(x)[0])
  {
    TrimStartSpec(x);
  }

  /** Removing leading white space from a non-blank field leaves the bar and
      what follows it alone. */
  lemma {:induction false} TrimStartBar(a: string, b: string)
    requires !IsBlank(a)
    ensures TrimStart(a + "|" + b) == TrimStart(a) + "|" + b
  {
    if IsSpace(a[0]) {
      assert (a + "|" + b)[1..] == a[1..] + "|" + b;
      TrimStartBar(a[1..], b);
    } else {
      assert (a + "|" + b)[0] == a[0];
    }
  }

  lemma TrimStartJoin(segs: seq<string>)
    requires |segs| >= 1 && !IsBlank(segs[0])
    ensures TrimStart(Join(segs, "|")) == Join([TrimStart(segs[0])] + segs[1..], "|")
  {
    var segs' := [TrimStart(segs[0])] + segs[1..];
    if |segs| >= 2 {
      TrimStartBar(segs[0], Join(segs[1..], "|"));
      assert segs'[1..] == segs[1..];
    } else {
      assert Join(segs', "|") == TrimStart(segs[0]);
    }
  }

  lemma TrimStartSubset(x: string, c: char)
    requires c !in x
    ensures c !in TrimStart(x)
  {
    TrimStartSpec(x);
  }

  /** The lazy first group ends where the first field's trailing white space begins. */
  lemma LazyGroupAtFieldEnd(s0: string, r: string, n: nat)
    requires 1 <= n && '|' !in s0 && !IsBlank(s0)
    requires SpaceThen(r, n - 1, WsLen(r)).Some?
    ensures LazyGroup(s0 + "|" + r, n, 1) == Some([TrimEnd(s0)] + SpaceThen(r, n - 1, WsLen(r)).value)
  {
    var t := s0 + "|" + r;
    var c := |TrimEnd(s0)|;
    TrimEndSpec(s0);
    LazyGroupSkips(s0, r, n, 1);
    AfterGroupAtFieldEnd(s0, r, n);
    assert t[..c] == TrimEnd(s0);
  }

  /** After the first field's trimmed text come its trailing white space, the
      bar, and the rest of the header. */
  lemma AfterGroupAtFieldEnd(s0: string, r: string, n: nat)
    requires 1 <= n && '|' !in s0 && !IsBlank(s0)
    ensures |TrimEnd(s0)| >= 1
    ensures AfterGroup((s0 + "|" + r)[|TrimEnd(s0)|..], n) == SpaceThen(r, n - 1, WsLen(r))
  {
    var t := s0 + "|" + r;
    var c := |TrimEnd(s0)|;
    TrimEndSpec(s0);
    var u := t[c..];
    assert u == s0[c..] + ("|" + r);
    WsLenBlankPrefix(s0[c..], "|" + r);
    var w := WsLen(u);
    assert u[w] == '|';
    assert u[w + 1..] == r;
  }

  /** P(n) on a header: the lazy first group, then the match of the rest. */
  lemma FirstGroupMatch(t: string, n: nat, s0: string, r: string, g': seq<string>)
    requires 1 <= n && t == s0 + "|" + r && '|' !in s0 && !IsBlank(s0)
    requires MatchP(TrimStart(r), n - 1) == Some(g')
    ensures MatchP(t, n) == Some([TrimEnd(s0)] + g')
  {
    WsLenTrimStart(r);
    assert SpaceThen(r, n - 1, WsLen(r)) == Some(g');
    LazyGroupAtFieldEnd(s0, r, n);
  }

  /** The fields of a header, joined with bars: none holds a bar and the first
      n + 1 are not blank. */
  predicate HeaderFields(segs: seq<string>, n: nat) {
    |segs| >= n + 1
    && (forall k :: 0 <= k < |segs| ==> '|' !in segs[k])
    && (forall k :: 0 <= k <= n ==> !IsBlank(segs[k]))
  }

  /** The main matching lemma, by induction on n: on a header whose first
      n + 1 bar-separated fields are not blank, P(n) matches; its first group
      is the first field without trailing white space, the next n - 1 are the
      trimmed fields and the last is the rest of the header after the n-th bar,
      without leading white space. */
  lemma {:induction false} FieldsMatch(segs: seq<string>, n: nat) returns (g: seq<string>)
    requires HeaderFields(segs, n)
    ensures MatchP(Join(segs, "|"), n) == Some(g) && |g| == n + 1
    ensures n == 0 ==> g == [Join(segs, "|")]
    ensures n >= 1 ==> g[0] == TrimEnd(segs[0])
    ensures forall k :: 1 <= k < n ==> g[k] == Trim(segs[k])
    ensures n >= 1 ==> g[n] == TrimStart(Join(segs[n..], "|"))
    decreases n
  {
    var t := Join(segs, "|");
    if n == 0 {
      assert t != [] by {
        if |segs| >= 2 {
          assert t == segs[0] + "|" + Join(segs[1..], "|");
        }
      }
      g := [t];
    } else {
      var r := Join(segs[1..], "|");
      assert t == segs[0] + "|" + r;
      var segs' := [TrimStart(segs[1])] + segs[2..];
      TrimStartJoin(segs[1..]);
      assert segs[1..][1..] == segs[2..];
      TrimStartNonBlank(segs[1]);
      TrimStartSubset(segs[1], '|');
      assert HeaderFields(segs', n - 1) by {
        assert forall k :: 1 <= k < |segs'| ==> segs'[k] == segs[k + 1];
      }
      var g' := FieldsMatch(segs', n - 1);
      FirstGroupMatch(t, n, segs[0], r, g');
      g := [TrimEnd(segs[0])] + g';
      GroupsFromRest(segs, segs', g', n);
    }
  }

  /** The inductive step of `FieldsMatch` on the field lists alone. */
  lemma GroupsFromRest(segs: seq<string>, srest: seq<string>, g': seq<string>, n: nat)
    requires 1 <= n && |segs| >= n + 1 && |srest| == |segs| - 1
    requires srest[0] == TrimStart(segs[1]) && srest[1..] == segs[2..]
    requires |g'| == n
    requires n == 1 ==> g' == [TrimStart(Join(segs[1..], "|"))]
    requires n >= 2 ==> g'[0] == TrimEnd(srest[0])
    requires forall k :: 1 <= k < n - 1 ==> g'[k] == Trim(srest[k])
    requires n >= 2 ==> g'[n - 1] == TrimStart(Join(srest[n - 1..], "|"))
    ensures var g := [TrimEnd(segs[0])] + g';
      && g[0] == TrimEnd(segs[0])
      && (forall k :: 1 <= k < n ==> g[k] == Trim(segs[k]))
      && g[n] == TrimStart(Join(segs[n..], "|"))
  {
    var g := [TrimEnd(segs[0])] + g';
    assert forall k :: 1 <= k <= n ==> g[k] == g'[k - 1];
    forall k | 1 <= k < n ensures g'[k - 1] == Trim(segs[k]) {
      if k > 1 {
        assert srest[k - 1] == srest[1..][k - 2] == segs[2..][k - 2] == segs[k];
      }
    }
    if n >= 2 {
      assert srest[n - 1..] == srest[1..][n - 2..] == segs[2..][n - 2..] == segs[n..];
    }
  }

  /** An unanchored search finds the anchored match at position 0 when there is one. */
  lemma SearchAtStart(h: string, n: nat)
    requires MatchP(h, n).Some?
    ensures Search(h, n, 0) == MatchP(h, n)
  {
    assert h[0..] == h;
  }

  lemma TrimStartTwice(s: string)
    ensures TrimStart(TrimStart(s)) == TrimStart(s)
  {
    TrimStartSpec(s);
  }

  lemma TrimOfTrimStart(s: string)
    ensures Trim(TrimStart(s)) == Trim(s)
  {
    TrimStartTwice(s);
  }

  /** A header whose first n + 1 bar-separated segments are not blank matches
      P(n) at its start. Trimmed, the groups are the first n segments and the
      whole rest of the header after the n-th bar, further bars included. */
  lemma HeaderMatch(h: string, n: nat) returns (g: seq<string>)
    requires 1 <= n && |Split(h, '|')| >= n + 1
    requires forall k :: 0 <= k <= n ==> !IsBlank(Split(h, '|')[k])
    ensures Search(h, n, 0) == Some(g) && |g| == n + 1
    ensures forall k :: 0 <= k < n ==> Trim(g[k]) == Trim(Split(h, '|')[k])
    ensures Trim(g[n]) == Trim(Join(Split(h, '|')[n..], "|"))
  {
    var segs := Split(h, '|');
    JoinSplit(h, '|');
    SplitPartsFree(h, '|');
    g := FieldsMatch(segs, n);
    SearchAtStart(h, n);
    TrimOfTrimEnd(segs[0]);
    forall k | 1 <= k < n ensures Trim(g[k]) == Trim(segs[k]) {
      TrimOfTrimmed(Trim(segs[k]));
    }
    TrimOfTrimStart(Join(segs[n..], "|"));
  }

  /** A header with fewer than n bars has no P(n) match. */
  lemma HeaderTooFewBars(h: string, n: nat)
    requires |Split(h, '|')| <= n
    ensures Search(h, n, 0).None?
  {
    SplitCount(h, '|');
    SearchNeedsBars(h, n, 0);
  }

  // ---------------------------------------------------------------------------
  // Label patterns.

  lemma SpaceThenRest(u: string, j: nat)
    requires j <= WsLen(u)
    ensures SpaceThen(u, 0, j).Some? <==> |u| > 0
    ensures SpaceThen(u, 0, j).Some? ==> Trim(SpaceThen(u, 0, j).value[0]) == Trim(u)
    decreases j
  {
    if j < |u| {
      assert MatchP(u[j..], 0) == Some([u[j..]]);
      assert SpaceThen(u, 0, j) == Some([u[j..]]);
      TrimAfterSpaces(u, j);
    } else if j > 0 {
      assert MatchP(u[j..], 0).None?;
      assert SpaceThen(u, 0, j) == SpaceThen(u, 0, j - 1);
      SpaceThenRest(u, j - 1);
    }
  }

  /** Dropping some of the leading white space does not change the trimmed text. */
  lemma TrimAfterSpaces(u: string, j: nat)
    requires j <= WsLen(u)
    ensures Trim(u[j..]) == Trim(u)
  {
    var w := WsLen(u);
    assert IsBlank(u[..j]) by {
      assert forall i :: 0 <= i < j ==> u[..j][i] == u[..w][i];
    }
    assert u == u[..j] + u[j..];
    TrimBlankPrefix(u[..j], u[j..]);
  }

  /** At an occurrence of the key the search ends, matching or not. */
  lemma LabelSearchAtOccurrence(line: string, key: string, p: nat)
    requires |key| > 0 && OccursAt(line, key, p)
    ensures LabelSearch(line, key, p).Some? <==> p + |key| < |line|
    ensures LabelSearch(line, key, p).Some? ==>
              Trim(LabelSearch(line, key, p).value) == Trim(line[p + |key|..])
  {
    var u := line[p + |key|..];
    SpaceThenRest(u, WsLen(u));
    if SpaceThen(u, 0, WsLen(u)).None? {
      LabelSearchNoneAtEnd(line, key, p + 1);
    }
  }

  lemma IndexOfIs(line: string, key: string, p: nat)
    requires OccursAt(line, key, p)
    requires forall j: nat :: j < p ==> !OccursAt(line, key, j)
    ensures IndexOf(line, key) == Some(p)
  {
  }

  /** The text after the first occurrence of `key` in `line`, if any. */
  function AfterKey(line: string, key: string): Option<string> {
    match IndexOf(line, key)
    case Some(q) => Some(line[q + |key|..])
    case None => None
  }

  /** The key regex `<key>\s*(.+)` on a line: it matches exactly when the
      first occurrence of the key has at least one character after it, and
      the trimmed group is the trimmed rest of the line after that occurrence. */
  lemma {:induction false} LabelSearchFirst(line: string, key: string, p: nat)
    requires |key| > 0
    requires forall j: nat :: j < p ==> !OccursAt(line, key, j)
    ensures LabelSearch(line, key, p).Some? <==> (AfterKey(line, key).Some? && AfterKey(line, key).value != [])
    ensures LabelSearch(line, key, p).Some? ==>
              Trim(LabelSearch(line, key, p).value) == Trim(AfterKey(line, key).value)
    decreases |line| - p
  {
    if p + |key| > |line| {
      LabelSearchNoneAtEnd(line, key, p);
      assert IndexOf(line, key).None?;
    } else if OccursAt(line, key, p) {
      IndexOfIs(line, key, p);
      LabelSearchAtOccurrence(line, key, p);
      assert AfterKey(line, key) == Some(line[p + |key|..]);
    } else {
      LabelSearchSkip(line, key, p);
      LabelSearchFirst(line, key, p + 1);
    }
  }

  lemma LabelSearchSkip(line: string, key: string, p: nat)
    requires |key| > 0 && p + |key| <= |line| && !OccursAt(line, key, p)
    ensures LabelSearch(line, key, p) == LabelSearch(line, key, p + 1)
  {
  }

  lemma {:induction false} LabelSearchNoneAtEnd(line: string, key: string, p: nat)
    requires |key| > 0 && p + |key| > |line|
    ensures LabelSearch(line, key, p).None?
  {
  }

  /** `match[1].trim()` for the key regex: the value a profile field takes from a line. */
  function LabelValue(line: string, key: string): Option<string>
    requires |key| > 0
  {
    match LabelSearch(line, key, 0)
    case Some(g) => Some(Trim(g))
    case None => None
  }

  /** A label yields a value exactly when its first occurrence on the line has
      at least one character after it; the value is that rest of the line,
      trimmed. A label followed only by white space yields the empty string. */
  lemma LabelValueSpec(line: string, key: string)
    requires |key| > 0
    ensures LabelValue(line, key).Some? <==> AfterKey(line, key).Some? && AfterKey(line, key).value != []
    ensures LabelValue(line, key).Some? ==> LabelValue(line, key).value == Trim(AfterKey(line, key).value)
  {
    LabelSearchFirst(line, key, 0);
  }
}
