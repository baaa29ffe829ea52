/** String helpers with the meaning of the Python built-ins the converter uses:
    `sep.join(parts)`, `s.split(sep)`, `s.split()` and `s * n`. */
module Text {

  /** A value that may be absent (Python's `None`). */
  datatype Option<T> = None | Some(value: T)

  /** The characters Python's `str.split()` (no argument) treats as whitespace. */
  const Whitespace: set<char> := {
    '\t', '\n', '\U{000B}', '\U{000C}', '\r', '\U{001C}', '\U{001D}', '\U{001E}', '\U{001F}',
    ' ', '\U{0085}', '\U{00A0}', '\U{1680}',
    '\U{2000}', '\U{2001}', '\U{2002}', '\U{2003}', '\U{2004}', '\U{2005}', '\U{2006}',
    '\U{2007}', '\U{2008}', '\U{2009}', '\U{200A}',
    '\U{2028}', '\U{2029}', '\U{202F}', '\U{205F}', '\U{3000}'
  }

  /** No character of `s` is in `cs`. */
  predicate NoneIn(s: string, cs: set<char>)
  {
    forall i :: 0 <= i < |s| ==> s[i] !in cs
  }

  /** `n` copies of the string `s`, one after the other. */
  function Repeat(s: string, n: nat): (r: string)
    ensures |r| == n * |s|
  {
    if n == 0 then "" else s + Repeat(s, n - 1)
  }

  /** A list of `n` copies of `x`. */
  function Copies(x: string, n: nat): (r: seq<string>)
    ensures |r| == n
    ensures forall i :: 0 <= i < n ==> r[i] == x
  {
    if n == 0 then [] else [x] + Copies(x, n - 1)
  }

  /** `sep + p` for every `p` of `ps`, concatenated in order. */
  function Chain(sep: string, ps: seq<string>): string
  {
    if ps == [] then "" else sep + ps[0] + Chain(sep, ps[1..])
  }

  lemma {:induction false} ChainSnoc(sep: string, ps: seq<string>, p: string)
    ensures Chain(sep, ps + [p]) == Chain(sep, ps) + sep + p
  {
    if ps == [] {
      assert ps + [p] == [p];
    } else {
      assert (ps + [p])[1..] == ps[1..] + [p];
      ChainSnoc(sep, ps[1..], p);
    }
  }

  /** Python's `sep.join(ps)`. */
  function Join(ps: seq<string>, sep: string): string
  {
    if ps == [] then "" else ps[0] + Chain(sep, ps[1..])
  }

  lemma JoinCons(p: string, ps: seq<string>, sep: string)
    requires ps != []
    ensures Join([p] + ps, sep) == p + sep + Join(ps, sep)
  {
    assert ([p] + ps)[1..] == ps;
  }

  lemma JoinSnoc(ps: seq<string>, p: string, sep: string)
    requires ps != []
    ensures Join(ps + [p], sep) == Join(ps, sep) + sep + p
  {
    assert (ps + [p])[0] == ps[0];
    assert (ps + [p])[1..] == ps[1..] + [p];
    ChainSnoc(sep, ps[1..], p);
  }

  /** Python's `s.split(c)` for any separator character in `seps`: the
      pieces between separators, the empty ones included. */
  function SplitOn(s: string, seps: set<char>): (parts: seq<string>)
    ensures |parts| >= 1
    ensures forall k :: 0 <= k < |parts| ==> NoneIn(parts[k], seps)
    ensures |parts[0]| <= |s| && s[..|parts[0]|] == parts[0]
    decreases |s|
  {
    if s == [] then [""]
    else
      var rest := SplitOn(s[1..], seps);
      if s[0] in seps then [""] + rest
      else [[s[0]] + rest[0]] + rest[1..]
  }

  /** Python's `s.split(c)`. */
  function Split(s: string, c: char): seq<string>
  {
    SplitOn(s, {c})
  }

  /** Every occurrence of `c` in `s` replaced by `t` (`s.replace(c, t)`). */
  function Replace(s: string, c: char, t: string): string
  {
    if s == [] then "" else (if s[0] == c then t else [s[0]]) + Replace(s[1..], c, t)
  }

  lemma {:induction false} ReplaceConcat(a: string, b: string, c: char, t: string)
    ensures Replace(a + b, c, t) == Replace(a, c, t) + Replace(b, c, t)
  {
    if a != [] {
      assert (a + b)[0] == a[0];
      assert (a + b)[1..] == a[1..] + b;
      ReplaceConcat(a[1..], b, c, t);
    } else {
      assert a + b == b;
    }
  }

  lemma {:induction false} ReplaceAbsent(s: string, c: char, t: string)
    requires NoneIn(s, {c})
    ensures Replace(s, c, t) == s
  {
    if s != [] {
      ReplaceAbsent(s[1..], c, t);
      assert s == [s[0]] + s[1..];
    }
  }

  lemma {:induction false} ReplaceKeepsAbsent(s: string, c: char, t: string, x: char)
    requires NoneIn(s, {x}) && NoneIn(t, {x})
    ensures NoneIn(Replace(s, c, t), {x})
  {
    if s != [] {
      ReplaceKeepsAbsent(s[1..], c, t, x);
    }
  }

  /** Replacing `c` by `d` and then `d` by `c` gives back every string that
      held no `d`. */
  lemma {:induction false} ReplaceBack(s: string, c: char, d: char)
    requires NoneIn(s, {d})
    ensures Replace(Replace(s, c, [d]), d, [c]) == s
  {
    if s != [] {
      var head := if s[0] == c then [d] else [s[0]];
      ReplaceConcat(head, Replace(s[1..], c, [d]), d, [c]);
      ReplaceBack(s[1..], c, d);
      assert Replace(head, d, [c]) == [s[0]];
      assert s == [s[0]] + s[1..];
    }
  }

  /** Joining the pieces of `s.split(c)` with `t` is the same as replacing
      every `c` of `s` by `t`; with `t == [c]` this is `c.join(s.split(c)) == s`. */
  lemma {:induction false} JoinSplit(s: string, c: char, t: string)
    ensures Join(Split(s, c), t) == Replace(s, c, t)
  {
    if s != [] {
      var rest := Split(s[1..], c);
      JoinSplit(s[1..], c, t);
      if s[0] == c {
        JoinCons("", rest, t);
      } else {
        var parts := Split(s, c);
        assert parts == [[s[0]] + rest[0]] + rest[1..];
        assert parts[1..] == rest[1..];
      }
    }
  }

  /** A separator splits `a + [c] + b` into the pieces of `a` followed by the
      pieces of `b`. */
  lemma {:induction false} SplitOnConcat(a: string, c: char, b: string, seps: set<char>)
    requires c in seps
    ensures SplitOn(a + [c] + b, seps) == SplitOn(a, seps) + SplitOn(b, seps)
  {
    if a == [] {
      assert (a + [c] + b)[1..] == b;
    } else {
      assert (a + [c] + b)[0] == a[0];
      assert (a + [c] + b)[1..] == a[1..] + [c] + b;
      SplitOnConcat(a[1..], c, b, seps);
    }
  }

  lemma {:induction false} SplitOnAbsent(s: string, seps: set<char>)
    requires NoneIn(s, seps)
    ensures SplitOn(s, seps) == [s]
  {
    if s != [] {
      SplitOnAbsent(s[1..], seps);
      assert s == [s[0]] + s[1..];
    }
  }

  /** Splitting lines joined by `c` gives back the lines when none holds `c`. */
  lemma {:induction false} SplitJoin(lines: seq<string>, c: char)
    requires lines != []
    requires forall k :: 0 <= k < |lines| ==> NoneIn(lines[k], {c})
    ensures Split(Join(lines, [c]), c) == lines
  {
    if |lines| == 1 {
      assert Join(lines, [c]) == lines[0] + Chain([c], []);
      assert Join(lines, [c]) == lines[0];
      SplitOnAbsent(lines[0], {c});
      assert SplitOn(lines[0], {c}) == [lines[0]];
      assert Split(lines[0], c) == [lines[0]];
      assert lines == [lines[0]];
    } else {
      JoinCons(lines[0], lines[1..], [c]);
      assert [lines[0]] + lines[1..] == lines;
      SplitOnConcat(lines[0], c, Join(lines[1..], [c]), {c});
      SplitOnAbsent(lines[0], {c});
      SplitJoin(lines[1..], c);
    }
  }

  lemma {:induction false} ChainKeepsAbsent(sep: string, ps: seq<string>, x: char)
    requires NoneIn(sep, {x})
    requires forall k :: 0 <= k < |ps| ==> NoneIn(ps[k], {x})
    ensures NoneIn(Chain(sep, ps), {x})
  {
    if ps != [] {
      ChainKeepsAbsent(sep, ps[1..], x);
    }
  }

  /** A character found in neither the parts nor the separator is not in their join. */
  lemma JoinKeepsAbsent(ps: seq<string>, sep: string, x: char)
    requires NoneIn(sep, {x})
    requires forall k :: 0 <= k < |ps| ==> NoneIn(ps[k], {x})
    ensures NoneIn(Join(ps, sep), {x})
  {
    if ps != [] {
      ChainKeepsAbsent(sep, ps[1..], x);
    }
  }

  lemma {:induction false} RepeatKeepsAbsent(s: string, n: nat, x: char)
    requires NoneIn(s, {x})
    ensures NoneIn(Repeat(s, n), {x})
  {
    if n > 0 {
      RepeatKeepsAbsent(s, n - 1, x);
    }
  }

  /** The non-empty strings of `ps`, in order. */
  function NonEmpty(ps: seq<string>): (r: seq<string>)
    ensures forall k :: 0 <= k < |r| ==> r[k] != ""
  {
    if ps == [] then [] else (if ps[0] == "" then [] else [ps[0]]) + NonEmpty(ps[1..])
  }

  lemma {:induction false} NonEmptyConcat(a: seq<string>, b: seq<string>)
    ensures NonEmpty(a + b) == NonEmpty(a) + NonEmpty(b)
  {
    if a == [] {
      assert a + b == b;
    } else {
      assert (a + b)[0] == a[0];
      assert (a + b)[1..] == a[1..] + b;
      NonEmptyConcat(a[1..], b);
    }
  }

  /** Python's `s.split()`: the maximal runs of non-whitespace characters. */
  function Words(s: string): seq<string>
  {
    NonEmpty(SplitOn(s, Whitespace))
  }

  /** A sequence of non-empty words none of which holds whitespace. */
  predicate AreWords(ws: seq<string>)
  {
    forall k :: 0 <= k < |ws| ==> ws[k] != "" && NoneIn(ws[k], Whitespace)
  }

  lemma WordsAreWords(s: string)
    ensures AreWords(Words(s))
  {
    var parts := SplitOn(s, Whitespace);
    var ws := NonEmpty(parts);
    forall k | 0 <= k < |ws| ensures NoneIn(ws[k], Whitespace) {
      NonEmptyKeeps(parts, Whitespace, k);
    }
  }

  lemma {:induction false} NonEmptyKeeps(ps: seq<string>, cs: set<char>, k: nat)
    requires forall j :: 0 <= j < |ps| ==> NoneIn(ps[j], cs)
    requires k < |NonEmpty(ps)|
    ensures NoneIn(NonEmpty(ps)[k], cs)
  {
    if ps[0] == "" {
      NonEmptyKeeps(ps[1..], cs, k);
    } else if k > 0 {
      NonEmptyKeeps(ps[1..], cs, k - 1);
    }
  }

  /** A single space splits `a + " " + b` into the words of `a` and then those of `b`. */
  lemma WordsConcat(a: string, b: string)
    ensures Words(a + " " + b) == Words(a) + Words(b)
  {
    SplitOnConcat(a, ' ', b, Whitespace);
    NonEmptyConcat(SplitOn(a, Whitespace), SplitOn(b, Whitespace));
  }

  /** Collapsed text: it starts and ends with a non-whitespace character, and
      every whitespace character in it is a single space followed by a
      non-whitespace character. */
  predicate Collapsed(r: string)
  {
    && (r != [] ==> r[0] !in Whitespace)
    && (forall i :: 0 <= i < |r| && r[i] in Whitespace ==> r[i] == ' ' && i + 1 < |r| && r[i + 1] !in Whitespace)
  }

  lemma CollapsedJoin2(a: string, b: string)
    requires a != [] && b != []
    requires Collapsed(a) && Collapsed(b)
    ensures Collapsed(a + " " + b)
  {
    var r := a + " " + b;
    assert r[0] == a[0];
    forall i | 0 <= i < |r| && r[i] in Whitespace
      ensures r[i] == ' ' && i + 1 < |r| && r[i + 1] !in Whitespace
    {
      if i < |a| {
        assert r[i] == a[i];
        if i + 1 < |a| {
          assert r[i + 1] == a[i + 1];
        } else {
          // a's last character would be whitespace followed by nothing
          assert false;
        }
      } else if i == |a| {
        assert r[i + 1] == b[0];
      } else {
        assert r[i] == b[i - |a| - 1];
        assert r[i + 1] == b[i - |a|];
      }
    }
  }

  /** Collapsed text holds no line break. */
  lemma CollapsedNoNewline(r: string)
    requires Collapsed(r)
    ensures NoneIn(r, {'\n'})
  {
  }

  lemma NoWhitespaceCollapsed(w: string)
    requires NoneIn(w, Whitespace)
    ensures Collapsed(w)
  {
  }

  /** Words joined by single spaces are collapsed text whose words are exactly
      the words that were joined. */
  lemma {:induction false} JoinWords(ws: seq<string>)
    requires AreWords(ws)
    ensures Collapsed(Join(ws, " "))
    ensures Words(Join(ws, " ")) == ws
  {
    if ws == [] {
      assert SplitOn("", Whitespace) == [""];
      assert NonEmpty([""]) == [] + NonEmpty([]);
    } else if |ws| == 1 {
      assert Join(ws, " ") == ws[0] + Chain(" ", []);
      assert Join(ws, " ") == ws[0];
      SplitOnAbsent(ws[0], Whitespace);
      assert SplitOn(ws[0], Whitespace) == [ws[0]];
      assert NonEmpty([ws[0]]) == [ws[0]] + NonEmpty([]);
      assert ws == [ws[0]];
      NoWhitespaceCollapsed(ws[0]);
    } else {
      JoinCons(ws[0], ws[1..], " ");
      assert [ws[0]] + ws[1..] == ws;
      JoinWords(ws[1..]);
      var rest := Join(ws[1..], " ");
      assert rest != [] by {
        assert SplitOn("", Whitespace) == [""];
        assert NonEmpty([""]) == [] + NonEmpty([]);
        assert Words(rest) == ws[1..] != Words("");
      }
      NoWhitespaceCollapsed(ws[0]);
      CollapsedJoin2(ws[0], rest);
      WordsConcat(ws[0], rest);
      SplitOnAbsent(ws[0], Whitespace);
    }
  }

  /** Lines joined with line breaks and followed by an empty line read back
      as those lines, the empty line, then the lines of what follows. */
  lemma LinesThenBlank(lines: seq<string>, rest: string)
    requires lines != []
    requires forall k :: 0 <= k < |lines| ==> NoneIn(lines[k], {'\n'})
    ensures Split(Join(lines, "\n") + "\n\n" + rest, '\n') == lines + [""] + Split(rest, '\n')
  {
    var text := Join(lines, "\n");
    assert text + "\n\n" + rest == text + ['\n'] + ("" + ['\n'] + rest);
    SplitOnConcat(text, '\n', "" + ['\n'] + rest, {'\n'});
    SplitOnConcat("", '\n', rest, {'\n'});
    SplitJoin(lines, '\n');
    SplitOnAbsent("", {'\n'});
  }
}
