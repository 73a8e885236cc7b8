/**
 * The cleaning half of `generate_followups` (backend/rag_pipeline.py): the
 * model's free-text list is cut into lines, numbering and bullet markers
 * are taken off, and empty lines are dropped.
 */
module Followups {
  import opened Wrappers
  import opened Text
  import opened Filtering

  /** The characters of `lstrip("-• ")`. */
  predicate IsBulletChar(c: char)
  {
    c == '-' || c == '\U{2022}' || c == ' '
  }

  /** A line as the list comprehension keeps it: stripped, and only when something is left. */
  function NonBlank(line: string): (r: Option<string>)
    ensures r.Some? <==> Strip(line) != ""
    ensures r.Some? ==> r.value == Strip(line)
  {
    var t := Strip(line);
    if t == "" then None else Some(t)
  }

  /** `[line.strip() for line in text.split("\n") if line.strip()]`. */
  function NonBlankLines(text: string): (lines: seq<string>)
    ensures |lines| <= |Split(text, '\n')|
  {
    FilterMap(Split(text, '\n'), NonBlank)
  }

  /** The body of the cleaning loop on one line: drop an "N." prefix, then leading bullets. */
  function CleanLine(line: string): (r: string)
    ensures Stripped(r) && |r| <= |line|
  {
    var unnumbered :=
      if line != [] && IsDigit(line[0]) && '.' in line
      then Strip(line[FirstIndex(line, '.') + 1..])
      else line;
    Strip(TrimLeft(unnumbered, IsBulletChar))
  }

  /** A line as the loop appends it: cleaned, and only when something is left. */
  function Cleaned(line: string): (r: Option<string>)
    ensures r.Some? <==> CleanLine(line) != ""
    ensures r.Some? ==> r.value == CleanLine(line)
  {
    var c := CleanLine(line);
    if c == "" then None else Some(c)
  }

  /** What `generate_followups` returns for the model's reply `text`. */
  function CleanReply(text: string): (followups: seq<string>)
    ensures |followups| <= |NonBlankLines(text)|
  {
    FilterMap(NonBlankLines(text), Cleaned)
  }

  /** Every line the comprehension keeps is non-empty and stripped. */
  lemma NonBlankLinesClean(text: string)
    ensures forall k :: 0 <= k < |NonBlankLines(text)| ==>
              NonBlankLines(text)[k] != "" && Stripped(NonBlankLines(text)[k])
  {
    var idx := Origins(Split(text, '\n'), NonBlank);
  }

  /** Every follow-up is non-empty and has no whitespace at either end. */
  lemma FollowupsClean(text: string)
    ensures forall k :: 0 <= k < |CleanReply(text)| ==>
              CleanReply(text)[k] != "" && Stripped(CleanReply(text)[k])
  {
    var idx := Origins(NonBlankLines(text), Cleaned);
  }

  /** There are never more follow-ups than non-blank lines in the reply. */
  lemma FollowupsBound(text: string)
    ensures |CleanReply(text)| <= |NonBlankLines(text)| == Count(Split(text, '\n'), line => Strip(line) != "")
  {
    FilterMapCount(Split(text, '\n'), NonBlank, line => Strip(line) != "");
  }

  /**
   * Where each follow-up comes from: the index of its line in `text.split("\n")`.
   * Indices increase, so the follow-ups keep the order of their lines.
   */
  function SourceLines(text: string): (idx: seq<nat>)
    ensures |idx| == |CleanReply(text)|
    ensures forall k :: 0 <= k < |idx| ==>
              idx[k] < |Split(text, '\n')| && CleanReply(text)[k] == CleanLine(Strip(Split(text, '\n')[idx[k]]))
    ensures forall k, l :: 0 <= k < l < |idx| ==> idx[k] < idx[l]
  {
    Origins2(Split(text, '\n'), NonBlank, Cleaned)
  }

  /** A line gives a follow-up exactly when its strip cleans to something non-empty: no such line is dropped. */
  lemma FollowupsComplete(text: string, j: nat)
    requires j < |Split(text, '\n')|
    ensures j in SourceLines(text) <==> Strip(Split(text, '\n')[j]) != "" && CleanLine(Strip(Split(text, '\n')[j])) != ""
  {
    var lines := Split(text, '\n');
    if Strip(lines[j]) != "" && CleanLine(Strip(lines[j])) != "" {
      FilterMapThen(lines, NonBlank, Cleaned);
      OriginsComplete(lines, x => Then(NonBlank, Cleaned, x), j);
    }
    if j in SourceLines(text) {
      var k :| 0 <= k < |SourceLines(text)| && SourceLines(text)[k] == j;
      FollowupsClean(text);
      assert CleanLine(Strip(lines[j])) != "";
      assert CleanLine("") == "";
    }
  }

  /** A numbered line keeps only the stripped text after its first ".", when that text has no bullet. */
  lemma NumberedLine(line: string)
    requires line != [] && IsDigit(line[0]) && '.' in line
    requires var rest := Strip(line[FirstIndex(line, '.') + 1..]); rest == [] || !IsBulletChar(rest[0])
    ensures CleanLine(line) == Strip(line[FirstIndex(line, '.') + 1..])
  {
    var rest := Strip(line[FirstIndex(line, '.') + 1..]);
    StripStripped(rest);
  }

  /** A line that is non-empty, stripped and starts with neither a digit nor a bullet is left alone. */
  predicate PlainLine(line: string)
  {
    line != "" && Stripped(line) && '\n' !in line
    && !IsDigit(line[0]) && line[0] != '-' && line[0] != '\U{2022}'
  }

  /** Cleaning leaves a plain line as it is. */
  lemma PlainLineClean(line: string)
    requires PlainLine(line)
    ensures CleanLine(line) == line
  {
    assert TrimLeft(line, IsBulletChar) == line;
    StripStripped(line);
  }

  /** Cleaning the newline-join of plain lines gives the same lines back. */
  lemma FollowupsOfPlainLines(lines: seq<string>)
    requires forall k :: 0 <= k < |lines| ==> PlainLine(lines[k])
    ensures CleanReply(Join("\n", lines)) == lines
  {
    if lines == [] {
      assert Split("", '\n') == [""];
      assert FilterMap([""], NonBlank) == [];
    } else {
      SplitJoin(lines, '\n');
      assert Split(Join("\n", lines), '\n') == lines;
      forall k | 0 <= k < |lines| ensures NonBlank(lines[k]) == Some(lines[k]) {
        StripStripped(lines[k]);
      }
      FilterMapKeepsAll(lines, NonBlank);
      forall k | 0 <= k < |lines| ensures Cleaned(lines[k]) == Some(lines[k]) {
        PlainLineClean(lines[k]);
      }
      FilterMapKeepsAll(lines, Cleaned);
    }
  }

  /** A line "N. question": one digit, a dot, a space, then a question that needs no further cleaning. */
  predicate NumberedQuestion(line: string, question: string)
  {
    |line| >= 3 && IsDigit(line[0]) && line[1] == '.' && line[2] == ' ' && line[3..] == question
    && question != "" && Stripped(question) && '\n' !in question && !IsBulletChar(question[0])
  }

  /** A numbered question is kept by the comprehension as it is, and the loop cleans it to its question. */
  lemma NumberedQuestionLine(line: string, question: string)
    requires NumberedQuestion(line, question)
    ensures '\n' !in line
    ensures NonBlank(line) == Some(line)
    ensures Cleaned(line) == Some(question)
  {
    StripStripped(line);
    assert FirstIndex(line, '.') == 1;
    assert line[2..] == [' '] + question;
    assert TrimLeft(line[2..], IsSpace) == question;
    assert TrimRight(question, IsSpace) == question;
    NumberedLine(line);
    StripStripped(question);
  }

  /** Two newline-free lines, each ended by a newline, split into the two lines and a last empty part. */
  lemma SplitTwoLines(a: string, b: string)
    requires '\n' !in a && '\n' !in b
    ensures Split(a + "\n" + b + "\n", '\n') == [a, b, ""]
  {
    var parts := [a, b, ""];
    assert parts[1..] == [b, ""] && parts[1..][1..] == [""];
    assert Join("\n", [b, ""]) == b + "\n" + "";
    assert Join("\n", parts) == a + "\n" + (b + "\n" + "");
    assert a + "\n" + (b + "\n" + "") == a + "\n" + b + "\n";
    SplitJoin(parts, '\n');
  }

  /** Two lines that the comprehension keeps as they are, each ended by a newline, are all it keeps. */
  lemma NonBlankTwoLines(a: string, b: string)
    requires '\n' !in a && NonBlank(a) == Some(a)
    requires '\n' !in b && NonBlank(b) == Some(b)
    ensures NonBlankLines(a + "\n" + b + "\n") == [a, b]
  {
    SplitTwoLines(a, b);
    StripEmptyIff("");
    FilterMapThree(a, b, "", NonBlank);
    assert [a] + [b] + [] == [a, b];
  }

  /** Two lines that the comprehension keeps as they are and the loop cleans, each ended by a newline, clean to their two cleaned forms. */
  lemma CleanTwoLines(a: string, qa: string, b: string, qb: string)
    requires '\n' !in a && NonBlank(a) == Some(a) && Cleaned(a) == Some(qa)
    requires '\n' !in b && NonBlank(b) == Some(b) && Cleaned(b) == Some(qb)
    ensures CleanReply(a + "\n" + b + "\n") == [qa, qb]
  {
    NonBlankTwoLines(a, b);
    FilterMapTwo(a, b, Cleaned);
    assert [qa] + [qb] == [qa, qb];
  }

  /** A reply of two numbered questions, each line ended by a newline, cleans to the two questions. */
  lemma TwoNumberedQuestions(a: string, qa: string, b: string, qb: string)
    requires NumberedQuestion(a, qa) && NumberedQuestion(b, qb)
    ensures CleanReply(a + "\n" + b + "\n") == [qa, qb]
  {
    NumberedQuestionLine(a, qa);
    NumberedQuestionLine(b, qb);
    CleanTwoLines(a, qa, b, qb);
  }

  /** "1. What is X?" is a numbered question. */
  lemma FirstExampleLine()
    ensures NumberedQuestion("1. What is X?", "What is X?")
  {
    assert "1. What is X?"[3..] == "What is X?";
  }

  /** "2. How about Y?" is a numbered question. */
  lemma SecondExampleLine()
    ensures NumberedQuestion("2. How about Y?", "How about Y?")
  {
    assert "2. How about Y?"[3..] == "How about Y?";
  }

  /** The reply "1. What is X?\n2. How about Y?\n" cleans to its two questions. */
  lemma NumberedListExample()
    ensures CleanReply("1. What is X?\n2. How about Y?\n") == ["What is X?", "How about Y?"]
  {
    FirstExampleLine();
    SecondExampleLine();
    TwoNumberedQuestions("1. What is X?", "What is X?", "2. How about Y?", "How about Y?");
    assert "1. What is X?" + "\n" + "2. How about Y?" + "\n" == "1. What is X?\n2. How about Y?\n";
  }

  /** One pass of the loop body (lines 54-56) on a non-empty line. */
  method CleanOne(line0: string) returns (line: string)
    requires line0 != ""
    ensures line == CleanLine(line0)
  {
    line := line0;
    if IsDigit(line[0]) && '.' in line {
      line := Strip(line[FirstIndex(line, '.') + 1..]);
    }
    line := Strip(TrimLeft(line, IsBulletChar));
  }

  /** The loop of `generate_followups` (lines 51-58), appending to `cleaned`. */
  method CleanFollowups(text: string) returns (cleaned: seq<string>)
    ensures cleaned == CleanReply(text)
    ensures |cleaned| <= |NonBlankLines(text)|
    ensures forall k :: 0 <= k < |cleaned| ==> cleaned[k] != "" && Stripped(cleaned[k])
  {
    var lines := NonBlankLines(text);
    cleaned := [];
    for i := 0 to |lines|
      invariant cleaned == FilterMap(lines[..i], Cleaned)
    {
      assert lines[i] != "" by {
        NonBlankLinesClean(text);
      }
      var line := CleanOne(lines[i]);
      FilterMapPrefix(lines, i, Cleaned);
      if line != "" {
        cleaned := cleaned + [line];
      }
    }
    assert cleaned == CleanReply(text) by {
      FilterMapWhole(lines, Cleaned);
    }
    FollowupsClean(text);
  }
}
