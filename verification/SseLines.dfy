/** What an event looks like on the wire: its line endings, and the comment no client acts on. */
module SseLines {
  import opened Sse
  import opened Wrappers

  /** The line endings of section 9.2.5 of the HTML standard. */
  predicate IsEnding(s: string) {
    s == [CR, LF] || s == [CR] || s == [LF]
  }

  lemma {:induction false} FoldPlain(a: string, b: string)
    requires CR !in a
    ensures FoldPairs(a + b) == a + FoldPairs(b) && FoldReturns(a + b) == a + FoldReturns(b)
    decreases |a|
  {
    if a == [] {
      assert a + b == b;
    } else {
      assert (a + b)[0] == a[0] && (a + b)[1..] == a[1..] + b;
      FoldPlain(a[1..], b);
    }
  }

  lemma FoldEnding(ending: string, b: string)
    requires IsEnding(ending) && (ending == [CR] ==> b == [] || b[0] != LF)
    ensures FoldPairs(ending + b) == (if ending == [CR, LF] then [LF] else ending) + FoldPairs(b)
  {
    assert (ending + b)[|ending|..] == b;
  }

  /** Text without an ending stays as it is; whatever ends a line becomes a line feed. */
  lemma EndingsNormalised(a: string, ending: string, b: string)
    requires OneLine(a) && IsEnding(ending) && (ending == [CR] ==> b == [] || b[0] != LF)
    ensures Normalised(a) == a
    ensures Normalised(a + ending + b) == a + ([LF] + Normalised(b))
  {
    assert a + [] == a;
    FoldPlain(a, []);
    var folded := if ending == [CR, LF] then [LF] else ending;
    assert a + ending + b == a + (ending + b);
    FoldPlain(a, ending + b);
    FoldEnding(ending, b);
    FoldPlain(a, folded + FoldPairs(b));
    assert (folded + FoldPairs(b))[1..] == FoldPairs(b);
  }

  // ---- Comments -------------------------------------------------------------

  predicate IsComment(line: string) {
    line != [] && line[0] == ':'
  }

  /** What the comment lines say, each behind its colon and space. */
  function Comments(lines: seq<string>): seq<string> {
    if lines == [] then []
    else
      var last := lines[|lines| - 1];
      Comments(lines[..|lines| - 1]) + if IsComment(last) && |last| >= 2 then [last[2..]] else []
  }

  lemma CommentsLast(lines: seq<string>, last: string)
    ensures Comments(lines + [last]) == Comments(lines) + if IsComment(last) && |last| >= 2 then [last[2..]] else []
  {
    assert (lines + [last])[..|lines|] == lines;
  }

  lemma {:induction false} CommentsAppend(a: seq<string>, b: seq<string>)
    ensures Comments(a + b) == Comments(a) + Comments(b)
  {
    if b == [] {
      assert a + b == a;
    } else {
      var front, last := b[..|b| - 1], b[|b| - 1];
      CommentsAppend(a, front);
      assert a + b == (a + front) + [last];
      CommentsLast(a + front, last);
    }
  }

  lemma {:induction false} CommentFields(values: seq<string>)
    ensures Comments(Fields("", values)) == values
  {
    if values != [] {
      var front, last := values[..|values| - 1], values[|values| - 1];
      CommentFields(front);
      CommentsLast(Fields("", front), Field("", last));
      assert Field("", last)[2..] == last;
    }
  }

  lemma {:induction false} OtherFields(name: string, values: seq<string>)
    requires name != [] && name[0] != ':'
    ensures Comments(Fields(name, values)) == []
  {
    if values != [] {
      OtherFields(name, values[..|values| - 1]);
      CommentsLast(Fields(name, values[..|values| - 1]), Field(name, values[|values| - 1]));
    }
  }

  lemma HeadQuiet(e: ServerSentEvent)
    ensures Comments(HeadLines(e)) == []
  {
    var id := if e.id.None? then [] else [Field("id", e.id.value)];
    var event := if e.event.None? then [] else [Field("event", e.event.value)];
    var retry := if e.retry.None? then [] else [Field("retry", Printed(e.retry.value))];
    assert forall line :: line in id || line in event || line in retry ==> !IsComment(line);
    NoComments(HeadLines(e));
  }

  lemma {:induction false} NoComments(lines: seq<string>)
    requires forall line :: line in lines ==> !IsComment(line)
    ensures Comments(lines) == []
  {
    if lines != [] {
      assert lines[|lines| - 1] in lines;
      NoComments(lines[..|lines| - 1]);
    }
  }

  /** A comment reaches whoever reads it line by line: its lines, and no others, behind a colon and a space. */
  lemma CommentCarried(e: ServerSentEvent)
    ensures Comments(LinesOf(e)) == if e.comment.None? then [] else Split(Normalised(e.comment.value))
  {
    CommentsAppend(CommentLines(e) + HeadLines(e), DataLines(e));
    CommentsAppend(CommentLines(e), HeadLines(e));
    HeadQuiet(e);
    if e.comment.Some? {
      CommentFields(Split(Normalised(e.comment.value)));
    }
    if e.data.Some? {
      OtherFields("data", Split(Normalised(e.data.value)));
    }
  }
}
