/** `escapeTypst`: the escaping of free text before it is embedded in Typst
    markup. The source writes it as six global replaces, the backslash first;
    the model states that chain and proves it equal to a per-character map. */
module TypstEscape {
  import opened Text

  /** The six characters that `escapeTypst` prefixes with a backslash. */
  predicate IsSpecial(c: char) {
    c == '\\' || c == '#' || c == '$' || c == '@' || c == '<' || c == '>'
  }

  function EscapeChar(c: char): string {
    if IsSpecial(c) then ['\\', c] else [c]
  }

  /** Number of special characters in `s`. */
  function CountSpecial(s: string): (n: nat)
    ensures n <= |s|
  {
    if s == [] then 0 else (if IsSpecial(s[0]) then 1 else 0) + CountSpecial(s[1..])
  }

  /** `escapeTypst` as one left-to-right pass over the characters. */
  function Escape(s: string): (r: string)
    ensures |r| == |s| + CountSpecial(s)
    ensures CountSpecial(s) == 0 ==> r == s
  {
    if s == [] then [] else EscapeChar(s[0]) + Escape(s[1..])
  }

  /** `s.replace(/c/g, rep)`: every occurrence of `c` replaced by `rep`. */
  function ReplaceAll(s: string, c: char, rep: string): (r: string)
    ensures c !in s ==> r == s
  {
    if s == [] then [] else (if s[0] == c then rep else [s[0]]) + ReplaceAll(s[1..], c, rep)
  }

  /** `escapeTypst` exactly as written: six global replaces in source order. */
  function EscapeChain(s: string): string {
    var s1 := ReplaceAll(s, '\\', "\\\\");
    var s2 := ReplaceAll(s1, '#', "\\#");
    var s3 := ReplaceAll(s2, '$', "\\$");
    var s4 := ReplaceAll(s3, '@', "\\@");
    var s5 := ReplaceAll(s4, '<', "\\<");
    ReplaceAll(s5, '>', "\\>")
  }

  lemma {:induction false} ReplaceAllAppend(a: string, b: string, c: char, rep: string)
    ensures ReplaceAll(a + b, c, rep) == ReplaceAll(a, c, rep) + ReplaceAll(b, c, rep)
  {
    if a == [] {
      assert a + b == b;
    } else {
      assert (a + b)[1..] == a[1..] + b;
      ReplaceAllAppend(a[1..], b, c, rep);
    }
  }

  lemma EscapeChainAppend(a: string, b: string)
    ensures EscapeChain(a + b) == EscapeChain(a) + EscapeChain(b)
  {
    var a1, b1 := ReplaceAll(a, '\\', "\\\\"), ReplaceAll(b, '\\', "\\\\");
    ReplaceAllAppend(a, b, '\\', "\\\\");
    var a2, b2 := ReplaceAll(a1, '#', "\\#"), ReplaceAll(b1, '#', "\\#");
    ReplaceAllAppend(a1, b1, '#', "\\#");
    var a3, b3 := ReplaceAll(a2, '$', "\\$"), ReplaceAll(b2, '$', "\\$");
    ReplaceAllAppend(a2, b2, '$', "\\$");
    var a4, b4 := ReplaceAll(a3, '@', "\\@"), ReplaceAll(b3, '@', "\\@");
    ReplaceAllAppend(a3, b3, '@', "\\@");
    var a5, b5 := ReplaceAll(a4, '<', "\\<"), ReplaceAll(b4, '<', "\\<");
    ReplaceAllAppend(a4, b4, '<', "\\<");
    ReplaceAllAppend(a5, b5, '>', "\\>");
  }

  lemma ReplaceAllChar(x: char, c: char, rep: string)
    ensures ReplaceAll([x], c, rep) == if x == c then rep else [x]
  {
    assert [x][1..] == [];
  }

  /** A replace whose target is neither of two characters leaves them alone. */
  lemma ReplaceAllPair(x: char, y: char, c: char, rep: string)
    requires x != c && y != c
    ensures ReplaceAll([x, y], c, rep) == [x, y]
  {
    assert [x, y] == [x] + [y];
    ReplaceAllAppend([x], [y], c, rep);
    ReplaceAllChar(x, c, rep);
    ReplaceAllChar(y, c, rep);
  }

  /** On one character the chain of replaces is the per-character escape: the
      backslash pass runs first, so no later pass meets a backslash it added. */
  lemma EscapeChainChar(c: char)
    ensures EscapeChain([c]) == EscapeChar(c)
  {
    var s1 := ReplaceAll([c], '\\', "\\\\");
    var s2 := ReplaceAll(s1, '#', "\\#");
    var s3 := ReplaceAll(s2, '$', "\\$");
    var s4 := ReplaceAll(s3, '@', "\\@");
    var s5 := ReplaceAll(s4, '<', "\\<");
    var s6 := ReplaceAll(s5, '>', "\\>");
    ReplaceAllChar(c, '\\', "\\\\");
    if c == '\\' {
      assert s1 == ['\\', '\\'];
      ReplaceAllPair('\\', '\\', '#', "\\#");
      ReplaceAllPair('\\', '\\', '$', "\\$");
      ReplaceAllPair('\\', '\\', '@', "\\@");
      ReplaceAllPair('\\', '\\', '<', "\\<");
      ReplaceAllPair('\\', '\\', '>', "\\>");
    } else {
      assert s1 == [c];
      ReplaceAllChar(c, '#', "\\#");
      if c == '#' {
        assert s2 == ['\\', c];
      } else {
        ReplaceAllChar(c, '$', "\\$");
        if c == '$' {
          assert s3 == ['\\', c];
        } else {
          ReplaceAllChar(c, '@', "\\@");
          if c == '@' {
            assert s4 == ['\\', c];
          } else {
            ReplaceAllChar(c, '<', "\\<");
            if c == '<' {
              assert s5 == ['\\', c];
            } else {
              ReplaceAllChar(c, '>', "\\>");
            }
          }
        }
      }
      if IsSpecial(c) {
        if c != '>' { ReplaceAllPair('\\', c, '>', "\\>"); }
        if c != '<' && c != '>' { ReplaceAllPair('\\', c, '<', "\\<"); }
        if c == '#' || c == '$' { ReplaceAllPair('\\', c, '@', "\\@"); }
        if c == '#' { ReplaceAllPair('\\', c, '$', "\\$"); }
      }
    }
  }

  /** The six chained replaces equal the single-pass per-character map. */
  lemma {:induction false} EscapeChainIsEscape(s: string)
    ensures EscapeChain(s) == Escape(s)
  {
    if s != [] {
      assert s == [s[0]] + s[1..];
      EscapeChainAppend([s[0]], s[1..]);
      EscapeChainChar(s[0]);
      EscapeChainIsEscape(s[1..]);
    } else {
      assert EscapeChain(s) == [];
    }
  }

  /** Escaping distributes over concatenation. */
  lemma {:induction false} EscapeAppend(a: string, b: string)
    ensures Escape(a + b) == Escape(a) + Escape(b)
  {
    if a == [] {
      assert a + b == b;
    } else {
      assert (a + b)[1..] == a[1..] + b;
      EscapeAppend(a[1..], b);
    }
  }

  /** Undoes `Escape`: a backslash followed by a special character stands for that character. */
  function Unescape(s: string): string {
    if s == [] then []
    else if |s| >= 2 && s[0] == '\\' && IsSpecial(s[1]) then [s[1]] + Unescape(s[2..])
    else [s[0]] + Unescape(s[1..])
  }

  /** Escaping loses nothing: unescaping gives the original text back. */
  lemma {:induction false} UnescapeEscape(s: string)
    ensures Unescape(Escape(s)) == s
  {
    if s != [] {
      UnescapeEscape(s[1..]);
      var e := Escape(s[1..]);
      if IsSpecial(s[0]) {
        assert Escape(s) == ['\\', s[0]] + e;
        assert (['\\', s[0]] + e)[2..] == e;
      } else {
        assert Escape(s) == [s[0]] + e;
        assert ([s[0]] + e)[1..] == e;
      }
    }
  }

  /** Text in which every special character is escaped: it reads as a run of
      tokens, each a non-special character or a backslash and a special one. */
  predicate WellEscaped(s: string)
    decreases |s|
  {
    s == []
    || (!IsSpecial(s[0]) && WellEscaped(s[1..]))
    || (|s| >= 2 && s[0] == '\\' && IsSpecial(s[1]) && WellEscaped(s[2..]))
  }

  lemma {:induction false} EscapeWellEscaped(s: string)
    ensures WellEscaped(Escape(s))
  {
    if s != [] {
      EscapeWellEscaped(s[1..]);
      var e := Escape(s[1..]);
      if IsSpecial(s[0]) {
        assert (['\\', s[0]] + e)[2..] == e;
      } else {
        assert ([s[0]] + e)[1..] == e;
      }
    }
  }

  /** After a well-escaped prefix the tokenisation restarts cleanly: the whole
      is well-escaped exactly when the rest is. */
  lemma {:induction false} WellEscapedAppend(a: string, b: string)
    requires WellEscaped(a)
    ensures WellEscaped(a + b) <==> WellEscaped(b)
    decreases |a|
  {
    if a == [] {
      assert a + b == b;
    } else if !IsSpecial(a[0]) {
      assert (a + b)[1..] == a[1..] + b;
      WellEscapedAppend(a[1..], b);
    } else {
      assert (a + b)[2..] == a[2..] + b;
      WellEscapedAppend(a[2..], b);
    }
  }

  /** Well-escaped text is exactly the image of `Escape`. */
  lemma {:induction false} EscapeUnescape(s: string)
    requires WellEscaped(s)
    ensures Escape(Unescape(s)) == s
    decreases |s|
  {
    if s != [] {
      if !IsSpecial(s[0]) {
        var u := Unescape(s[1..]);
        EscapeUnescape(s[1..]);
        assert Unescape(s) == [s[0]] + u;
        assert ([s[0]] + u)[1..] == u;
        assert Escape([s[0]] + u) == [s[0]] + Escape(u);
        assert s == [s[0]] + s[1..];
      } else {
        assert |s| >= 2 && s[0] == '\\' && IsSpecial(s[1]) && WellEscaped(s[2..]);
        var u := Unescape(s[2..]);
        EscapeUnescape(s[2..]);
        assert Unescape(s) == [s[1]] + u;
        assert ([s[1]] + u)[1..] == u;
        assert Escape([s[1]] + u) == ['\\', s[1]] + Escape(u);
        assert s == [s[0], s[1]] + s[2..];
      }
    }
  }

  /** In well-escaped text every `#`, `$`, `@`, `<`, `>` comes right after a backslash. */
  lemma {:induction false} WellEscapedNoBareMarkup(s: string, i: nat)
    requires WellEscaped(s) && i < |s| && IsSpecial(s[i]) && s[i] != '\\'
    ensures i > 0 && s[i - 1] == '\\'
    decreases |s|
  {
    if !IsSpecial(s[0]) {
      WellEscapedNoBareMarkup(s[1..], i - 1);
    } else if i >= 2 {
      WellEscapedNoBareMarkup(s[2..], i - 2);
    }
  }

  lemma {:induction false} CountSpecialAppend(a: string, b: string)
    ensures CountSpecial(a + b) == CountSpecial(a) + CountSpecial(b)
  {
    if a == [] {
      assert a + b == b;
    } else {
      assert (a + b)[1..] == a[1..] + b;
      CountSpecialAppend(a[1..], b);
    }
  }
}
