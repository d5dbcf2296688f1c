/** Newline-delimited text: the lines of a byte stream, and how they grow as bytes arrive. */
module Lines {
  predicate HasNewline(s: string) {
    exists i :: 0 <= i < |s| && s[i] == '\n'
  }

  /** Position of the first newline at or after `start`, or |s| when there is none. */
  method Find(s: string, start: nat) returns (at: nat)
    requires start <= |s|
    ensures start <= at <= |s|
    ensures !HasNewline(s[start..at])
    ensures at < |s| ==> s[at] == '\n'
    ensures at == |s| ==> !HasNewline(s[start..])
  {
    at := start;
    while at < |s| && s[at] != '\n'
      invariant start <= at <= |s|
      invariant forall i :: start <= i < at ==> s[i] != '\n'
    {
      at := at + 1;
    }
  }

  /** Each line followed by a newline. */
  function Unlines(lines: seq<string>): string {
    if lines == [] then "" else lines[0] + "\n" + Unlines(lines[1..])
  }

  predicate NoNewlines(lines: seq<string>) {
    forall i :: 0 <= i < |lines| ==> !HasNewline(lines[i])
  }

  function FirstNewline(s: string): (at: nat)
    ensures at <= |s| && !HasNewline(s[..at])
    ensures at < |s| ==> s[at] == '\n'
  {
    if s == [] || s[0] == '\n' then 0
    else
      var at := 1 + FirstNewline(s[1..]);
      assert s[..at] == [s[0]] + s[1..][..at - 1];
      at
  }

  /** The newline-terminated lines of `s`, and the unterminated text after the last one. */
  function Complete(s: string): (lines: seq<string>)
    decreases |s|
  {
    var at := FirstNewline(s);
    if at == |s| then [] else [s[..at]] + Complete(s[at + 1..])
  }

  function Tail(s: string): string
    decreases |s|
  {
    var at := FirstNewline(s);
    if at == |s| then s else Tail(s[at + 1..])
  }

  /** All lines: a non-empty unterminated tail is a line too. */
  function SplitLines(s: string): seq<string> {
    Complete(s) + if Tail(s) == "" then [] else [Tail(s)]
  }

  lemma NewlineFreePrefix(s: string, n: nat)
    requires n <= |s| && !HasNewline(s[..n])
    ensures forall i :: 0 <= i < n ==> s[i] != '\n'
  {
  }

  lemma FirstNewlineIs(s: string, at: nat)
    requires at <= |s| && !HasNewline(s[..at])
    requires at < |s| ==> s[at] == '\n'
    ensures FirstNewline(s) == at
  {
    NewlineFreePrefix(s, at);
    NewlineFreePrefix(s, FirstNewline(s));
  }

  lemma UnlinesCons(line: string, lines: seq<string>, rest: string)
    ensures Unlines([line] + lines) + rest == line + "\n" + (Unlines(lines) + rest)
  {
  }

  /** Splitting loses nothing: the lines and the tail are the text again. */
  lemma {:induction false} SplitRebuilds(s: string)
    ensures Unlines(Complete(s)) + Tail(s) == s
    ensures NoNewlines(Complete(s)) && !HasNewline(Tail(s))
    decreases |s|
  {
    var at := FirstNewline(s);
    if at < |s| {
      var line, more := s[..at], s[at + 1..];
      SplitRebuilds(more);
      RebuildCons(line, Complete(more), Tail(more), s);
    } else {
      assert s[..at] == s;
      assert "" + s == s;
    }
  }

  lemma RebuildCons(line: string, lines: seq<string>, tail: string, s: string)
    requires |line| < |s| && s[..|line|] == line && s[|line|] == '\n'
    requires Unlines(lines) + tail == s[|line| + 1..]
    requires NoNewlines(lines) && !HasNewline(line)
    ensures Unlines([line] + lines) + tail == s
    ensures NoNewlines([line] + lines)
  {
  }

  /** Any other cut of the text into newline-free lines and a rest is consistent with the split. */
  lemma {:induction false} SplitOfUnlines(lines: seq<string>, rest: string)
    requires NoNewlines(lines)
    ensures Complete(Unlines(lines) + rest) == lines + Complete(rest)
    ensures Tail(Unlines(lines) + rest) == Tail(rest)
  {
    if lines == [] {
      assert Unlines(lines) + rest == rest;
      assert [] + Complete(rest) == Complete(rest);
    } else {
      var line, more := lines[0], lines[1..];
      assert lines == [line] + more;
      SplitOfUnlines(more, rest);
      SplitOfCons(line, more, rest);
      ConsConcat(line, more, Complete(rest));
    }
  }

  lemma ConsConcat<T>(x: T, a: seq<T>, b: seq<T>)
    ensures [x] + (a + b) == ([x] + a) + b
  {
  }

  lemma SplitOfCons(line: string, lines: seq<string>, rest: string)
    requires !HasNewline(line)
    ensures Complete(Unlines([line] + lines) + rest) == [line] + Complete(Unlines(lines) + rest)
    ensures Tail(Unlines([line] + lines) + rest) == Tail(Unlines(lines) + rest)
  {
    UnlinesCons(line, lines, rest);
    FirstLineOf(line, Unlines(lines) + rest);
  }

  lemma FirstLineOf(line: string, more: string)
    requires !HasNewline(line)
    ensures Complete(line + "\n" + more) == [line] + Complete(more)
    ensures Tail(line + "\n" + more) == Tail(more)
  {
    var s := line + "\n" + more;
    assert s[..|line|] == line && s[|line| + 1..] == more;
    FirstNewlineIs(s, |line|);
  }

  lemma NewlineFree(rest: string)
    requires !HasNewline(rest)
    ensures Complete(rest) == [] && Tail(rest) == rest
  {
  }

  lemma {:induction false} UnlinesSnoc(lines: seq<string>, line: string)
    ensures Unlines(lines + [line]) == Unlines(lines) + line + "\n"
  {
    if lines == [] {
      assert [line][1..] == [];
      assert lines + [line] == [line];
    } else {
      assert (lines + [line])[1..] == lines[1..] + [line];
      UnlinesSnoc(lines[1..], line);
    }
  }

  /** More bytes only add lines after the complete ones, made from the old tail and the new bytes. */
  lemma SplitExtends(a: string, b: string)
    ensures Complete(a + b) == Complete(a) + Complete(Tail(a) + b)
    ensures Tail(a + b) == Tail(Tail(a) + b)
  {
    SplitRebuilds(a);
    assert a + b == Unlines(Complete(a)) + (Tail(a) + b);
    SplitOfUnlines(Complete(a), Tail(a) + b);
  }

  /** The lines `fed` and the bytes `rest` still to be cut together make up `total`. */
  ghost predicate CutAt(total: string, fed: seq<string>, rest: string) {
    Complete(total) == fed + Complete(rest) && Tail(total) == Tail(rest)
  }

  lemma CutOfAppend(stream: string, data: string)
    ensures CutAt(stream + data, Complete(stream), Tail(stream) + data)
  {
    SplitExtends(stream, data);
  }

  lemma CutNextLine(total: string, fed: seq<string>, text: string, start: nat, newline: nat)
    requires start <= newline < |text| && CutAt(total, fed, text[start..])
    requires !HasNewline(text[start..newline]) && text[newline] == '\n'
    ensures CutAt(total, fed + [text[start..newline]], text[newline + 1..])
  {
    var line, more := text[start..newline], text[newline + 1..];
    assert text[start..] == line + "\n" + more;
    CutFirst(total, fed, line, more);
  }

  lemma CutFirst(total: string, fed: seq<string>, line: string, more: string)
    requires CutAt(total, fed, line + "\n" + more) && !HasNewline(line)
    ensures CutAt(total, fed + [line], more)
  {
    FirstLineOf(line, more);
    assert fed + ([line] + Complete(more)) == fed + [line] + Complete(more);
  }

  lemma CutFinished(total: string, fed: seq<string>, rest: string)
    requires CutAt(total, fed, rest) && !HasNewline(rest)
    ensures Complete(total) == fed && Tail(total) == rest
  {
  }

  /** The first line of a non-empty text, with or without a newline after it, and the lines after it. */
  lemma SplitFirst(s: string, at: nat)
    requires s != "" && at <= |s| && !HasNewline(s[..at])
    requires at < |s| ==> s[at] == '\n'
    ensures SplitLines(s) == [s[..at]] + if at < |s| then SplitLines(s[at + 1..]) else []
  {
    FirstNewlineIs(s, at);
    assert at == |s| ==> s[..at] == s;
    if at < |s| {
      var more := s[at + 1..];
      var last := if Tail(more) == "" then [] else [Tail(more)];
      assert [s[..at]] + (Complete(more) + last) == [s[..at]] + Complete(more) + last;
    } else {
      NewlineFree(s);
      assert s[..at] == s;
    }
  }

  /** The same, from a position on. */
  lemma SplitFirstFrom(s: string, from: nat, newline: nat)
    requires from < |s| && from <= newline <= |s| && !HasNewline(s[from..newline])
    requires newline < |s| ==> s[newline] == '\n'
    ensures SplitLines(s[from..]) == [s[from..newline]] + if newline + 1 < |s| then SplitLines(s[newline + 1..]) else []
  {
    var rest, n := s[from..], newline - from;
    assert rest[..n] == s[from..newline];
    SplitFirst(rest, n);
    if newline < |s| {
      assert rest[n + 1..] == s[newline + 1..];
      if newline + 1 == |s| { NewlineFree(""); }
    }
  }

  lemma SplitWithTail(lines: seq<string>, last: string)
    requires NoNewlines(lines) && !HasNewline(last) && last != ""
    ensures SplitLines(Unlines(lines) + last) == lines + [last]
  {
    SplitOfUnlines(lines, last);
    NewlineFree(last);
    assert lines + [] == lines;
  }

  lemma SplitAfter(lines: seq<string>, more: string)
    requires NoNewlines(lines)
    ensures SplitLines(Unlines(lines) + more) == lines + SplitLines(more)
  {
    SplitOfUnlines(lines, more);
    ConcatAssoc(lines, Complete(more), if Tail(more) == "" then [] else [Tail(more)]);
  }

  lemma ConcatAssoc<T>(a: seq<T>, b: seq<T>, c: seq<T>)
    ensures (a + b) + c == a + (b + c)
  {
  }
}
