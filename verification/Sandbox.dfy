/** What a sandboxed command is reported to have done. */
module Sandbox {
  import opened Wrappers
  import opened Evidence
  import opened Text

  // ---- The status of a command ----

  function StatusOf(timedOut: bool, exitCode: Option<int>): (status: CommandStatus)
    ensures status == Passed <==> !timedOut && exitCode == Some(0)
    ensures status == TimedOut <==> timedOut
    ensures status in {Passed, Failed, TimedOut}
  {
    if timedOut then TimedOut else if exitCode == Some(0) then Passed else Failed
  }

  // ---- Process lists ----

  /** The white space of Unicode. */
  predicate IsSpace(c: char) {
    var n := c as int;
    || 9 <= n <= 13 || n in {0x20, 0x85, 0xA0, 0x1680, 0x2028, 0x2029, 0x202F, 0x205F, 0x3000}
    || 0x2000 <= n <= 0x200A
  }

  /** The words of a text, where `word` is the part of a word already read. */
  function WordsFrom(s: string, word: string): seq<string> {
    var done := if word == "" then [] else [word];
    if s == "" then done
    else if IsSpace(s[0]) then done + WordsFrom(s[1..], "")
    else WordsFrom(s[1..], word + [s[0]])
  }

  function Words(s: string): seq<string> {
    WordsFrom(s, "")
  }

  predicate IsWord(word: string) {
    word != "" && forall i | 0 <= i < |word| :: !IsSpace(word[i])
  }

  /** Lines as Rust reads them: a final line break ends the last line. */
  function Lines(output: string): seq<string> {
    var parts := Split(output, '\n');
    if parts[|parts| - 1] == "" then parts[..|parts| - 1] else parts
  }

  function Redacted(argument: string): string {
    if Contains(argument, "token=") || Contains(argument, "password=") then "<redacted>" else argument
  }

  function RedactAll(arguments: seq<string>): seq<string> {
    seq(|arguments|, i requires 0 <= i < |arguments| => Redacted(arguments[i]))
  }

  /** The observation of one line, after its process ids; only `node -e` is kept. */
  function LineProcess(line: string): Option<ProcessObservation> {
    var fields := Words(line);
    var command := Join(if |fields| > 2 then fields[2..] else [], ' ');
    if command == "" then None
    else
      var parts := Words(command);
      if parts == [] then None
      else
        var arguments := RedactAll(parts[1..]);
        if !EndsWith(parts[0], "node") || arguments == [] || arguments[0] != "-e" then None
        else Some(ProcessObservation(parts[0], arguments, None, None))
  }

  function ObservedIn(lines: seq<string>): set<ProcessObservation> {
    set line | line in lines && LineProcess(line).Some? :: LineProcess(line).value
  }

  /** The lines after the heading. */
  function Listed(output: string): seq<string> {
    if Lines(output) == [] then [] else Lines(output)[1..]
  }

  method CollectProcesses(output: string, processes: set<ProcessObservation>) returns (after: set<ProcessObservation>)
    ensures after == processes + ObservedIn(Listed(output))
  {
    after := processes;
    var lines := Listed(output);
    for i := 0 to |lines|
      invariant after == processes + ObservedIn(lines[..i])
    {
      ObservationsAppend(lines, i);
      var process := LineProcess(lines[i]);
      if process.None? {
        continue;
      }
      after := after + {process.value};
    }
    assert lines[..|lines|] == lines;
  }

  lemma ObservationsAppend(lines: seq<string>, i: nat)
    requires i < |lines|
    ensures var process := LineProcess(lines[i]);
      ObservedIn(lines[..i + 1]) == ObservedIn(lines[..i]) + if process.Some? then {process.value} else {}
  {
    assert lines[..i + 1] == lines[..i] + [lines[i]];
  }

  lemma {:induction false} WordsOfWord(word: string, rest: string, read: string)
    requires forall i | 0 <= i < |word| :: !IsSpace(word[i])
    ensures WordsFrom(word + rest, read) == WordsFrom(rest, read + word)
  {
    if word == "" {
      assert word + rest == rest && read + word == read;
    } else {
      assert (word + rest)[1..] == word[1..] + rest;
      WordsOfWord(word[1..], rest, read + [word[0]]);
      assert read + [word[0]] + word[1..] == read + word;
    }
  }

  /** Joining words and splitting again gives the words. */
  lemma {:induction false} WordsOfJoin(words: seq<string>)
    requires forall i | 0 <= i < |words| :: IsWord(words[i])
    ensures Words(Join(words, ' ')) == words
  {
    if |words| == 1 {
      WordsOfWord(words[0], "", "");
      assert words[0] + "" == words[0] == "" + words[0];
    } else if |words| > 1 {
      WordsOfJoin(words[1..]);
      var rest := Join(words[1..], ' ');
      WordsOfWord(words[0], [' '] + rest, "");
      assert Join(words, ' ') == words[0] + ([' '] + rest);
      assert ([' '] + rest)[1..] == rest && "" + words[0] == words[0];
    }
  }

  lemma {:induction false} WordsAreWords(s: string, word: string)
    requires word == "" || IsWord(word)
    ensures forall i | 0 <= i < |WordsFrom(s, word)| :: IsWord(WordsFrom(s, word)[i])
  {
    if s != "" {
      WordsAreWords(s[1..], if IsSpace(s[0]) then "" else word + [s[0]]);
    }
  }

  /** A line is observed exactly when its third word ends with "node" and its fourth
      is "-e", and then as those words and the ones after them, redacted. */
  lemma LineProcessExact(line: string)
    ensures var fields := Words(line);
      LineProcess(line) ==
        if |fields| >= 4 && EndsWith(fields[2], "node") && fields[3] == "-e"
        then Some(ProcessObservation(fields[2], RedactAll(fields[3..]), None, None)) else None
  {
    var fields := Words(line);
    WordsAreWords(line, "");
    if |fields| > 2 {
      var words := fields[2..];
      WordsOfJoin(words);
      assert words[1..] == fields[3..];
      if |fields| > 3 {
        RedactedDash(fields[3]);
      }
    }
  }

  lemma ContainsItsParts(s: string, text: string, k: nat)
    requires k < |text|
    ensures Contains(s, text) ==> text[k] in s
  {
    forall i | 0 <= i <= |s| && text <= s[i..]
      ensures text[k] in s
    {
      assert s[i..][k] == text[k];
    }
  }

  lemma RedactedDash(argument: string)
    ensures Redacted(argument) == "-e" <==> argument == "-e"
  {
    ContainsItsParts(argument, "token=", 0);
    ContainsItsParts(argument, "password=", 0);
  }

  /** No observed argument shows a token or a password. */
  lemma NothingSecret(line: string, i: nat)
    requires LineProcess(line).Some? && i < |LineProcess(line).value.arguments|
    ensures var argument := LineProcess(line).value.arguments[i];
      !Contains(argument, "token=") && !Contains(argument, "password=")
  {
    assert '=' !in "<redacted>";
    ContainsItsParts("<redacted>", "token=", 5);
    ContainsItsParts("<redacted>", "password=", 8);
  }

  // ---- Lines and words ----

  /** A text without a line break is one line, or none when it is empty; a line break
      ends a line. */
  lemma LinesExact(line: string, rest: string)
    requires '\n' !in line
    ensures Lines(line) == (if line == "" then [] else [line])
    ensures Lines(line + "\n" + rest) == [line] + Lines(rest)
  {
    SplitOne(line, '\n');
    SplitFirst(line, rest, '\n');
    var parts := Split(rest, '\n');
    assert ([line] + parts)[..|parts|] == [line] + parts[..|parts| - 1];
  }

  /** The heading is skipped, and nothing else. */
  lemma OnlyHeadingSkipped(heading: string, rest: string)
    requires '\n' !in heading
    ensures Listed(heading) == [] && Listed(heading + "\n" + rest) == Lines(rest)
  {
    LinesExact(heading, rest);
  }

  /** Words are what stands between white space. */
  lemma WordsExact(a: string, space: char, b: string)
    requires IsSpace(space)
    ensures Words("") == [] && (IsWord(a) ==> Words(a) == [a])
    ensures Words(a + [space] + b) == Words(a) + Words(b)
  {
    if IsWord(a) {
      WordsOfWord(a, "", "");
      assert a + "" == a && "" + a == a;
    }
    WordsAround(a, space, b, "");
  }

  lemma {:induction false} WordsAround(a: string, space: char, b: string, word: string)
    requires IsSpace(space)
    ensures WordsFrom(a + [space] + b, word) == WordsFrom(a, word) + WordsFrom(b, "")
  {
    var s := a + [space] + b;
    if a == "" {
      assert s[1..] == b;
    } else {
      assert s[1..] == a[1..] + [space] + b;
      WordsAround(a[1..], space, b, if IsSpace(a[0]) then "" else word + [a[0]]);
    }
  }

  /** An argument is hidden exactly when a secret is assigned somewhere in it, and is
      otherwise kept as it is. */
  lemma RedactedExact(argument: string)
    ensures (exists before, after :: argument == before + "token=" + after || argument == before + "password=" + after)
      ==> Redacted(argument) == "<redacted>"
    ensures (forall before, after :: argument != before + "token=" + after && argument != before + "password=" + after)
      ==> Redacted(argument) == argument
  {
    ContainsMeans(argument, "token=");
    ContainsMeans(argument, "password=");
  }
}
