/** The collector of psql's error lines (psqlErrorCollector in internal/branch/import.go), fed in whatever
    chunks the pipe delivers. */
module Collector {
  import opened Text

  /** How many failed statements an import error lists. */
  const ERRORS_SHOWN := 20

  // ---------------------------------------------------------------- lines

  /** The lines of `s` that end in a newline. */
  function Lines(s: string): seq<string> { Split(s, '\n')[..|Split(s, '\n')| - 1] }

  /** What comes after the last newline. */
  function Rest(s: string): string { Split(s, '\n')[|Split(s, '\n')| - 1] }

  /** All lines, the last one even without a newline. */
  function AllLines(s: string): seq<string> { Lines(s) + if Rest(s) == "" then [] else [Rest(s)] }

  lemma LinesAt(s: string)
    ensures var i := FirstOf(s, '\n');
            if i == |s| then Lines(s) == [] && Rest(s) == s
            else Lines(s) == [s[..i]] + Lines(s[i + 1..]) && Rest(s) == Rest(s[i + 1..])
  {
    hide Split; hide FirstOf;
    SplitAt(s, '\n');
    var i := FirstOf(s, '\n');
    if i < |s| {
      ConsFront(s[..i], Split(s[i + 1..], '\n'));
    }
  }

  lemma ConsFront(l: string, tail: seq<string>)
    requires tail != []
    ensures var all := [l] + tail;
            all[..|all| - 1] == [l] + tail[..|tail| - 1] && all[|all| - 1] == tail[|tail| - 1]
  {
  }

  /** The lines and the rest are what splitting at newlines gives: the one list of newline-free texts that
      joins to the whole. */
  lemma LinesAreTheSplit(s: string, parts: seq<string>)
    requires parts != []
    ensures Join(parts, '\n') == s && (forall p :: p in parts ==> '\n' !in p) <==> parts == Lines(s) + [Rest(s)]
  {
    SplitIff(s, parts, '\n');
  }

  lemma LinesCons(l: string, s: string)
    requires '\n' !in l
    ensures Lines(l + "\n" + s) == [l] + Lines(s) && Rest(l + "\n" + s) == Rest(s)
  {
    hide Lines; hide Rest;
    var t := l + "\n" + s;
    assert t[|l|] == '\n';
    LinesAt(t);
    var i := FirstOf(t, '\n');
    CutAt(t, i);
    FirstCut(l, s, t[..i], t[i + 1..], '\n');
  }

  /** More text goes on where the last unfinished line stopped. */
  lemma {:induction false} LinesAppend(s: string, b: string)
    ensures Lines(s + b) == Lines(s) + Lines(Rest(s) + b) && Rest(s + b) == Rest(Rest(s) + b)
    decreases |s|
  {
    hide Lines; hide Rest; hide FirstOf;
    LinesAt(s);
    var i := FirstOf(s, '\n');
    if i == |s| {
      assert [] + Lines(s + b) == Lines(s + b);
    } else {
      var l, t := s[..i], s[i + 1..];
      CutAt(s, i);
      LinesAppend(t, b);
      LinesCons(l, t + b);
      assert l + "\n" + t + b == l + "\n" + (t + b);
      assert [l] + (Lines(t) + Lines(Rest(t) + b)) == [l] + Lines(t) + Lines(Rest(t) + b);
    }
  }

  // ---------------------------------------------------------------- error lines

  /** strings.Contains. */
  predicate Contains(s: string, sub: string) { exists i :: 0 <= i <= |s| - |sub| && FoundAt(s, sub, i) }

  predicate FoundAt(s: string, sub: string, i: nat) { i + |sub| <= |s| && s[i..i + |sub|] == sub }

  /** Not a notice, a warning, or the context around an error. */
  predicate IsError(l: string) { Contains(l, "ERROR:") || Contains(l, "FATAL:") }

  function Errors(lines: seq<string>): seq<string> {
    if lines == [] then []
    else
      var n := |lines| - 1;
      Errors(lines[..n]) + if IsError(lines[n]) then [lines[n]] else []
  }

  lemma {:induction false} ErrorsConcat(a: seq<string>, b: seq<string>)
    ensures Errors(a + b) == Errors(a) + Errors(b)
  {
    if b == [] {
      assert a + b == a;
    } else {
      var n := |b| - 1;
      ErrorsConcat(a, b[..n]);
      assert (a + b)[..|a + b| - 1] == a + b[..n];
    }
  }

  /** The first errors, without the white space around them. */
  function Shown(trim: string -> string, errors: seq<string>): (r: seq<string>)
    ensures |r| == if |errors| < ERRORS_SHOWN then |errors| else ERRORS_SHOWN
  {
    var n := if |errors| < ERRORS_SHOWN then |errors| else ERRORS_SHOWN;
    seq(n, i requires 0 <= i < n => trim(errors[i]))
  }

  function Listing(first: seq<string>): string {
    if first == [] then "" else Listing(first[..|first| - 1]) + ("\n  " + first[|first| - 1])
  }

  /** The text of an import error. */
  function Message(count: nat, target: string, first: seq<string>): string {
    FormatInt(count) + " statement(s) failed — the rest loaded, and instance " + target +
    " is kept so you can inspect it:" + Listing(first) +
    if count > |first| then "\n  … and " + FormatInt(count - |first|) + " more" else ""
  }

  class ErrorCollector {
    const trim: string -> string   // strings.TrimSpace
    const quote: string -> string  // %q
    var partial: string
    var count: nat
    var first: seq<string>
    ghost var written: string
    ghost var lines: seq<string>

    /** `lines` are the lines taken so far, and everything else written is in `partial`. */
    ghost predicate Taken()
      reads this
    {
      count == |Errors(lines)| && first == Shown(trim, Errors(lines))
    }

    /** Between two writes: exactly the finished lines have been taken. */
    ghost predicate Valid()
      reads this
    {
      Taken() && lines == Lines(written) && partial == Rest(written)
    }

    constructor (trim: string -> string, quote: string -> string)
      ensures Valid() && written == "" && this.trim == trim && this.quote == quote
    {
      this.trim, this.quote := trim, quote;
      partial, count, first := "", 0, [];
      written, lines := "", [];
    }

    method Line(l: string)
      requires Taken()
      modifies this`count, this`first, this`lines
      ensures Taken() && lines == old(lines) + [l]
    {
      ghost var errors := Errors(lines);
      assert (lines + [l])[..|lines|] == lines;
      lines := lines + [l];
      if !(Contains(l, "ERROR:") || Contains(l, "FATAL:")) {
        return;
      }
      assert Errors(lines) == errors + [l];
      count := count + 1;
      if |first| < ERRORS_SHOWN {
        first := first + [trim(l)];
      }
    }

    /** Takes one more chunk. */
    method Write(b: string) returns (n: nat)
      requires Valid()
      modifies this
      ensures Valid() && written == old(written) + b && n == |b|
    {
      hide Errors; hide Shown; hide Lines; hide Rest;
      LinesAppend(written, b);
      partial := partial + b;
      ghost var before := lines;
      assert before + Lines(partial) == Lines(written + b);
      while true
        invariant Taken() && lines + Lines(partial) == Lines(written + b) && Rest(partial) == Rest(written + b)
        invariant written == old(written)
        decreases |partial|
      {
        LinesAt(partial);
        var i := FirstOf(partial, '\n');
        if i == |partial| {
          break;
        }
        assert lines + ([partial[..i]] + Lines(partial[i + 1..])) == (lines + [partial[..i]]) + Lines(partial[i + 1..]);
        Line(partial[..i]);
        partial := partial[i + 1..];
      }
      assert lines + [] == lines;
      written := written + b;
      n := |b|;
    }

    /** A last line without a newline. */
    method Flush()
      requires Valid()
      modifies this
      ensures count == |Errors(AllLines(old(written)))| && first == Shown(trim, Errors(AllLines(old(written))))
      ensures written == old(written)
    {
      hide Errors; hide Shown;
      if |partial| > 0 {
        Line(partial);
        partial := "";
      }
      assert lines + [] == lines;
      assert old(lines) + [] == old(lines);
    }

    /** The result of an import: the failed statements if there were any, else the command's own error. */
    method Failure(target: string, runErr: Option<string>) returns (err: Option<string>)
      ensures err == if count == 0 then runErr else Some(Message(count, quote(target), first))
    {
      if count == 0 {
        return runErr;
      }
      var list := "";
      for i := 0 to |first|
        invariant list == Listing(first[..i])
      {
        assert first[..i + 1][..i] == first[..i];
        list := list + ("\n  " + first[i]);
      }
      assert first[..|first|] == first;
      var b := FormatInt(count) + " statement(s) failed — the rest loaded, and instance " + quote(target) +
               " is kept so you can inspect it:" + list;
      if count > |first| {
        b := b + ("\n  … and " + FormatInt(count - |first|) + " more");
      } else {
        b := b + "";
      }
      return Some(b);
    }
  }

  function Concat(chunks: seq<string>): string {
    if chunks == [] then "" else Concat(chunks[..|chunks| - 1]) + chunks[|chunks| - 1]
  }

  /** Chunk independence: the collector's findings are those of splitting the whole stream into lines,
      however it was cut into writes; and there is no failure exactly when no line was an error and the
      command succeeded. */
  method Collect(trim: string -> string, quote: string -> string, chunks: seq<string>, target: string, runErr: Option<string>)
    returns (count: nat, first: seq<string>, err: Option<string>)
    ensures count == |Errors(AllLines(Concat(chunks)))| && first == Shown(trim, Errors(AllLines(Concat(chunks))))
    ensures err.None? <==> runErr.None? && forall l :: l in AllLines(Concat(chunks)) ==> !IsError(l)
    ensures count == 0 ==> err == runErr
  {
    hide Errors; hide Shown; hide AllLines; hide IsError;
    var c := new ErrorCollector(trim, quote);
    for i := 0 to |chunks|
      invariant fresh(c) && c.Valid() && c.written == Concat(chunks[..i]) && c.trim == trim
    {
      assert chunks[..i + 1][..i] == chunks[..i];
      var n := c.Write(chunks[i]);
    }
    assert chunks[..|chunks|] == chunks;
    c.Flush();
    NoErrors(AllLines(Concat(chunks)));
    err := c.Failure(target, runErr);
    count, first := c.count, c.first;
  }

  lemma {:induction false} NoErrors(lines: seq<string>)
    ensures Errors(lines) == [] <==> forall l :: l in lines ==> !IsError(l)
  {
    if lines != [] {
      var n := |lines| - 1;
      NoErrors(lines[..n]);
      assert lines == lines[..n] + [lines[n]];
    }
  }

  /** Two ways of cutting one stream into chunks lead to the same result. */
  lemma ConcatSplit(chunks: seq<string>, i: nat, a: string, b: string)
    requires i < |chunks| && chunks[i] == a + b
    ensures Concat(chunks[..i] + [a, b] + chunks[i + 1..]) == Concat(chunks)
  {
    var x, y := chunks[..i], chunks[i + 1..];
    assert chunks == x + ([chunks[i]] + y);
    assert x + [a, b] + y == x + ([a, b] + y);
    ConcatPair(a, b);
    hide Concat;
    ConcatOf(x, [a, b] + y);
    ConcatOf([a, b], y);
    ConcatOf(x, [chunks[i]] + y);
    ConcatOf([chunks[i]], y);
  }

  lemma ConcatPair(a: string, b: string)
    ensures Concat([a, b]) == a + b == Concat([a + b])
  {
    assert [a, b][..1] == [a] && Concat([a]) == a;
  }

  lemma {:induction false} ConcatOf(x: seq<string>, y: seq<string>)
    ensures Concat(x + y) == Concat(x) + Concat(y)
  {
    if y == [] {
      assert x + y == x;
    } else {
      var n := |y| - 1;
      ConcatOf(x, y[..n]);
      assert (x + y)[..|x + y| - 1] == x + y[..n];
    }
  }
}
