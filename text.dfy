/**
 * The JavaScript string operations the stream decoder is built from:
 * `trim`, `startsWith` and `split("\n")`.
 */
module Text {

  /** The code points ECMAScript's `trim` removes: WhiteSpace (tab, vertical tab, form feed,
      byte-order mark and every space separator) and LineTerminator (LF, CR, U+2028, U+2029). */
  predicate IsWhitespace(c: char) {
    || c == '\t' || c == '\n' || c == '\U{000B}' || c == '\U{000C}' || c == '\r'
    || c == ' ' || c == '\U{00A0}' || c == '\U{1680}'
    || ('\U{2000}' <= c <= '\U{200A}')
    || c == '\U{2028}' || c == '\U{2029}' || c == '\U{202F}' || c == '\U{205F}'
    || c == '\U{3000}' || c == '\U{FEFF}'
  }

  predicate AllWhitespace(s: string) {
    forall k :: 0 <= k < |s| ==> IsWhitespace(s[k])
  }

  /** `s` with its leading whitespace removed. */
  function TrimStart(s: string): string {
    if s != [] && IsWhitespace(s[0]) then TrimStart(s[1..]) else s
  }

  /** `s` with its trailing whitespace removed. */
  function TrimEnd(s: string): string {
    if s != [] && IsWhitespace(s[|s| - 1]) then TrimEnd(s[..|s| - 1]) else s
  }

  /** `String.prototype.trim`. */
  function Trim(s: string): string {
    TrimEnd(TrimStart(s))
  }

  /** `TrimStart` removes a whitespace prefix and stops at the first other character. */
  lemma {:induction false} TrimStartSpec(s: string)
    ensures var r := TrimStart(s);
      && |r| <= |s| && r == s[|s| - |r|..]
      && AllWhitespace(s[..|s| - |r|])
      && (r != [] ==> !IsWhitespace(r[0]))
  {
    if s != [] && IsWhitespace(s[0]) {
      TrimStartSpec(s[1..]);
      var r := TrimStart(s);
      assert s[..|s| - |r|] == [s[0]] + s[1..][..|s| - 1 - |r|];
    }
  }

  /** `TrimEnd` removes a whitespace suffix and stops at the last other character. */
  lemma {:induction false} TrimEndSpec(s: string)
    ensures var r := TrimEnd(s);
      && |r| <= |s| && r == s[..|r|]
      && AllWhitespace(s[|r|..])
      && (r != [] ==> !IsWhitespace(r[|r| - 1]))
  {
    if s != [] && IsWhitespace(s[|s| - 1]) {
      TrimEndSpec(s[..|s| - 1]);
      var r := TrimEnd(s);
      assert s[|r|..] == s[..|s| - 1][|r|..] + [s[|s| - 1]];
    }
  }

  /** The trim of `s` neither starts nor ends with whitespace, and it is empty exactly when `s`
      is all whitespace. Where it sits in `s` is stated by `TrimStartSpec` and `TrimEndSpec`. */
  lemma TrimSpec(s: string)
    ensures var r := Trim(s);
      && (r != [] ==> !IsWhitespace(r[0]) && !IsWhitespace(r[|r| - 1]))
      && (r == [] <==> AllWhitespace(s))
  {
    var t := TrimStart(s);
    var r := TrimEnd(t);
    TrimStartSpec(s);
    TrimEndSpec(t);
    if r == [] {
      assert s == s[..|s| - |t|] + t;
      assert t == t[|r|..];
    } else {
      assert r[0] == t[0];
    }
  }

  /** A string that neither starts nor ends with whitespace is its own trim. */
  lemma TrimOfTrimmed(s: string)
    requires s != [] ==> !IsWhitespace(s[0]) && !IsWhitespace(s[|s| - 1])
    ensures Trim(s) == s
  {
  }

  predicate StartsWith(s: string, prefix: string) {
    |prefix| <= |s| && s[..|prefix|] == prefix
  }

  lemma StartsWithTrans(a: string, b: string, c: string)
    requires StartsWith(a, b) && StartsWith(b, c)
    ensures StartsWith(a, c)
  {
    assert a[..|c|] == a[..|b|][..|c|];
  }

  /** Every line followed by a newline: what `lines.join("\n") + "\n"` builds when `lines` is non-empty. */
  function Terminated(lines: seq<string>): string {
    if lines == [] then "" else lines[0] + "\n" + Terminated(lines[1..])
  }

  predicate NewlineFree(lines: seq<string>) {
    forall k :: 0 <= k < |lines| ==> '\n' !in lines[k]
  }

  /** `s.split("\n")`: the pieces between newlines. There is always one more piece than there are
      newlines, and the last piece is the text after the last newline. */
  function Split(s: string): (r: seq<string>)
    ensures |r| >= 1
  {
    if s == [] then [""]
    else if s[0] == '\n' then [""] + Split(s[1..])
    else
      var t := Split(s[1..]);
      [[s[0]] + t[0]] + t[1..]
  }

  predicate Joins(parts: seq<string>, s: string)
    requires |parts| >= 1
  {
    Terminated(parts[..|parts| - 1]) + parts[|parts| - 1] == s
  }

  /** The pieces contain no newline, and joining them back with newlines gives `s`. */
  lemma {:induction false} SplitSpec(s: string)
    ensures NewlineFree(Split(s)) && Joins(Split(s), s)
  {
    if s != [] {
      SplitSpec(s[1..]);
      if s[0] == '\n' {
        SplitSpecNewline(s, Split(s[1..]));
      } else {
        SplitSpecOther(s, Split(s[1..]));
      }
    }
  }

  lemma TerminatedCons(line: string, lines: seq<string>)
    ensures Terminated([line] + lines) == line + "\n" + Terminated(lines)
  {
    assert ([line] + lines)[1..] == lines;
  }

  lemma SplitSpecNewline(s: string, t: seq<string>)
    requires s != [] && s[0] == '\n' && t == Split(s[1..])
    requires NewlineFree(t) && Joins(t, s[1..])
    ensures NewlineFree(Split(s)) && Joins(Split(s), s)
  {
    var r := [""] + t;
    assert r == Split(s);
    assert NewlineFree(r) by {
      forall k | 0 <= k < |r| ensures '\n' !in r[k] {
        if k > 0 { assert r[k] == t[k - 1]; }
      }
    }
    JoinsAfterNewline(s[1..], t);
    assert s == "\n" + s[1..];
  }

  lemma JoinsAfterNewline(rest: string, t: seq<string>)
    requires |t| >= 1 && Joins(t, rest)
    ensures Joins([""] + t, "\n" + rest)
  {
    var r := [""] + t;
    var init := t[..|t| - 1];
    assert r[..|r| - 1] == [""] + init;
    TerminatedCons("", init);
    assert "" + "\n" == "\n";
  }

  lemma SplitSpecOther(s: string, t: seq<string>)
    requires s != [] && s[0] != '\n' && t == Split(s[1..])
    requires NewlineFree(t) && Joins(t, s[1..])
    ensures NewlineFree(Split(s)) && Joins(Split(s), s)
  {
    var head := [s[0]] + t[0];
    var r := [head] + t[1..];
    assert r == Split(s);
    assert NewlineFree(r) by {
      forall k | 0 <= k < |r| ensures '\n' !in r[k] {
        if k > 0 { assert r[k] == t[k]; }
      }
    }
    assert Joins(r, s) by {
      if |t| == 1 {
        SplitSpecOtherLast(s, t, head, r);
      } else {
        SplitSpecOtherMore(s, t, head, r);
      }
    }
  }

  lemma SplitSpecOtherLast(s: string, t: seq<string>, head: string, r: seq<string>)
    requires s != [] && |t| == 1 && Joins(t, s[1..])
    requires head == [s[0]] + t[0] && r == [head] + t[1..]
    ensures Joins(r, s)
  {
    assert r == [head] && t[..0] == [];
    assert s == [s[0]] + s[1..];
  }

  lemma SplitSpecOtherMore(s: string, t: seq<string>, head: string, r: seq<string>)
    requires s != [] && |t| > 1 && Joins(t, s[1..])
    requires head == [s[0]] + t[0] && r == [head] + t[1..]
    ensures Joins(r, s)
  {
    var init := t[1..|t| - 1];
    assert t[..|t| - 1] == [t[0]] + init;
    assert r[..|r| - 1] == [head] + init;
    TerminatedCons(t[0], init);
    TerminatedCons(head, init);
    assert r[|r| - 1] == t[|t| - 1];
    assert s == [s[0]] + s[1..];
  }

  /** The newline-terminated lines of `s`, in order. */
  function CompleteLines(s: string): seq<string> {
    var parts := Split(s);
    parts[..|parts| - 1]
  }

  /** The text after the last newline of `s`: the piece kept back until more text arrives. */
  function Carry(s: string): string {
    var parts := Split(s);
    parts[|parts| - 1]
  }

  lemma {:induction false} SplitAfterLine(line: string, rest: string)
    requires '\n' !in line
    ensures Split(line + "\n" + rest) == [line] + Split(rest)
  {
    if line == [] {
      assert line + "\n" + rest == "\n" + rest;
      assert ("\n" + rest)[1..] == rest;
    } else {
      var s := line + "\n" + rest;
      assert s[1..] == line[1..] + "\n" + rest;
      SplitAfterLine(line[1..], rest);
      assert [s[0]] + line[1..] == line;
    }
  }

  lemma {:induction false} TerminatedAppend(a: seq<string>, b: seq<string>)
    ensures Terminated(a + b) == Terminated(a) + Terminated(b)
  {
    if a != [] {
      assert (a + b)[1..] == a[1..] + b;
      TerminatedAppend(a[1..], b);
    } else {
      assert a + b == b;
    }
  }

  lemma {:induction false} SplitNewlineFree(s: string)
    requires '\n' !in s
    ensures Split(s) == [s]
  {
    if s != [] {
      SplitNewlineFree(s[1..]);
      assert [s[0]] + s[1..] == s;
    }
  }

  /** `Split` inverts the framing: newline-free lines, each terminated, followed by a newline-free
      carry, split back into exactly those lines and that carry. */
  lemma {:induction false} SplitTerminated(lines: seq<string>, carry: string)
    requires NewlineFree(lines) && '\n' !in carry
    ensures Split(Terminated(lines) + carry) == lines + [carry]
  {
    if lines == [] {
      assert Terminated(lines) + carry == carry;
      SplitNewlineFree(carry);
    } else {
      var s := Terminated(lines) + carry;
      assert s == lines[0] + "\n" + (Terminated(lines[1..]) + carry);
      SplitAfterLine(lines[0], Terminated(lines[1..]) + carry);
      SplitTerminated(lines[1..], carry);
      assert lines == [lines[0]] + lines[1..];
    }
  }

  /** The framing of `s`: newline-free complete lines, each terminated, then a newline-free carry. */
  lemma LinesSpec(s: string)
    ensures NewlineFree(CompleteLines(s)) && '\n' !in Carry(s)
    ensures Terminated(CompleteLines(s)) + Carry(s) == s
  {
    SplitSpec(s);
    var parts := Split(s);
    assert forall k :: 0 <= k < |parts| - 1 ==> parts[..|parts| - 1][k] == parts[k];
    assert Joins(parts, s);
  }

  lemma NewlineFreeConcat(a: seq<string>, b: seq<string>)
    requires NewlineFree(a) && NewlineFree(b)
    ensures NewlineFree(a + b)
  {
    forall k | 0 <= k < |a + b| ensures '\n' !in (a + b)[k] {
      if k >= |a| { assert (a + b)[k] == b[k - |a|]; }
    }
  }

  /** Where the chunk boundaries fall does not matter: the complete lines of `a + b` are the
      complete lines of `a` followed by the complete lines of `a`'s carry extended by `b`, and the
      carry of `a + b` is that extension's carry. */
  lemma SplitExtend(a: string, b: string)
    ensures CompleteLines(a + b) == CompleteLines(a) + CompleteLines(Carry(a) + b)
    ensures Carry(a + b) == Carry(Carry(a) + b)
  {
    var first := CompleteLines(a);
    var rest := Carry(a) + b;
    var second := CompleteLines(rest);
    var last := Carry(rest);
    LinesSpec(a);
    LinesSpec(rest);
    NewlineFreeConcat(first, second);
    TerminatedAppend(first, second);
    calc {
      Terminated(first + second) + last;
      Terminated(first) + (Terminated(second) + last);
      Terminated(first) + rest;
      (Terminated(first) + Carry(a)) + b;
      a + b;
    }
    SplitTerminated(first + second, last);
  }

  /** The text of the chunks one after the other: what arrives on the wire. */
  function Concat(chunks: seq<string>): string
    decreases |chunks|
  {
    if chunks == [] then "" else Concat(chunks[..|chunks| - 1]) + chunks[|chunks| - 1]
  }

  lemma {:induction false} ConcatPrepend(first: string, chunks: seq<string>)
    ensures Concat([first] + chunks) == first + Concat(chunks)
    decreases |chunks|
  {
    var all := [first] + chunks;
    if chunks == [] {
      assert all == [first] && all[..0] == [];
    } else {
      var init := chunks[..|chunks| - 1];
      assert all[..|all| - 1] == [first] + init;
      assert all[|all| - 1] == chunks[|chunks| - 1];
      ConcatPrepend(first, init);
    }
  }

}
