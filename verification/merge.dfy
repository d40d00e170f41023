/** Flattening of a question-to-answer payload into the user's situation text
    (`_merge_experience` in server.py). */
module Merge {
  import opened Text

  /** The JSON body of a request: an object, as the items of the dictionary
      it was parsed into (insertion order), or any other JSON value. */
  datatype Payload =
    | NotAnObject
    | Object(entries: seq<(string, string)>)
  {
    /** A dictionary holds each key once; a JSON body that repeats a key has
        already been folded into one entry, at the first position with the
        last answer, before merging sees it. */
    predicate Keyed() {
      Object? ==> forall i, j :: 0 <= i < j < |entries| ==> entries[i].0 != entries[j].0
    }
  }

  /** The line for one entry, given its stripped question and stripped, non-blank
      answer: `"q: a"` when there is a question, the bare answer otherwise. */
  function EntryLine(q: string, a: string): string {
    if q != [] then q + ": " + a else a
  }

  /** The entries whose stripped answer is blank contribute no line. */
  predicate Kept(entry: (string, string)) {
    !AllSpace(entry.1)
  }

  function LineOf(entry: (string, string)): string {
    EntryLine(Strip(entry.0), Strip(entry.1))
  }

  /** The lines of the merged text, one per kept entry, in input order. */
  function Lines(entries: seq<(string, string)>): (lines: seq<string>)
    ensures |lines| <= |entries|
    ensures lines == [] <==> forall i :: 0 <= i < |entries| ==> !Kept(entries[i])
    ensures forall j :: 0 <= j < |lines| ==> lines[j] != [] && Trimmed(lines[j])
  {
    if entries == [] then []
    else
      var rest := Lines(entries[1..]);
      assert forall i :: 1 <= i < |entries| ==> entries[i] == entries[1..][i - 1];
      if !Kept(entries[0]) then rest
      else
        var line := LineOf(entries[0]);
        assert line[|line| - 1] == Strip(entries[0].1)[|Strip(entries[0].1)| - 1];
        [line] + rest
  }

  /** `_merge_experience`: the kept lines joined by newlines and stripped; the
      empty string for a non-object payload. */
  function MergeExperience(payload: Payload): (r: string)
    ensures r == [] <==> payload.NotAnObject? || forall i :: 0 <= i < |payload.entries| ==> !Kept(payload.entries[i])
    ensures Trimmed(r)
  {
    if payload.NotAnObject? then []
    else
      var lines := Lines(payload.entries);
      var joined := Join("\n", lines);
      assert lines != [] ==> !AllSpace(joined) by {
        if lines != [] {
          assert joined[0] == lines[0][0];
        }
      }
      Strip(joined)
  }

  /** The final strip is a no-op: the merged text is exactly the kept lines joined by newlines. */
  lemma MergeIsJoinedLines(entries: seq<(string, string)>)
    ensures MergeExperience(Object(entries)) == Join("\n", Lines(entries))
  {
    var lines := Lines(entries);
    var joined := Join("\n", lines);
    if lines != [] {
      assert joined[0] == lines[0][0];
      var last := lines[|lines| - 1];
      assert joined[|joined| - 1] == last[|last| - 1];
    }
    StripTrimmed(joined);
  }

  /** A single entry contributes its line exactly when its answer is not blank. */
  lemma LinesSingle(entry: (string, string))
    ensures Lines([entry]) == if Kept(entry) then [LineOf(entry)] else []
  {
    assert [entry][1..] == [];
  }

  /** Order preservation: the lines of consecutive runs of entries are the lines
      of each run, in the same order. Together with `LinesSingle` this pins the
      lines down as the kept entries' lines in input order. */
  lemma {:induction false} LinesConcat(front: seq<(string, string)>, back: seq<(string, string)>)
    ensures Lines(front + back) == Lines(front) + Lines(back)
  {
    if front == [] {
      assert front + back == back;
    } else {
      assert (front + back)[1..] == front[1..] + back;
      LinesConcat(front[1..], back);
    }
  }

  /** Merging two runs of entries that each keep an answer gives the two merged
      texts joined by a newline. */
  lemma MergeConcat(front: seq<(string, string)>, back: seq<(string, string)>)
    requires Lines(front) != [] && Lines(back) != []
    ensures MergeExperience(Object(front + back))
         == MergeExperience(Object(front)) + "\n" + MergeExperience(Object(back))
  {
    MergeIsJoinedLines(front + back);
    MergeIsJoinedLines(front);
    MergeIsJoinedLines(back);
    LinesConcat(front, back);
    JoinAppend("\n", Lines(front), Lines(back));
  }

  /** A worked example: an answered question is kept as `"q: a"`, an unanswered one dropped. */
  lemma MergeExample()
    ensures MergeExperience(Object([("Were you yelled at?", "Yes, daily"), ("Any witnesses?", "")]))
         == "Were you yelled at?: Yes, daily"
  {
    var entries := [("Were you yelled at?", "Yes, daily"), ("Any witnesses?", "")];
    StripTrimmed("Were you yelled at?");
    StripTrimmed("Yes, daily");
    assert !IsSpace(entries[0].1[0]);
    assert Kept(entries[0]) && !Kept(entries[1]);
    assert LineOf(entries[0]) == "Were you yelled at?: Yes, daily";
    assert Lines(entries[1..][1..]) == [];
    assert Lines(entries[1..]) == [];
    assert Lines(entries) == ["Were you yelled at?: Yes, daily"];
    MergeIsJoinedLines(entries);
  }
}
