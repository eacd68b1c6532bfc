/** The input parser: `parse_input` splits a command line into the lower-cased
    command word and its argument words. The `input_error` wrapper around it
    turns the IndexError raised on a line without words into a fixed reply. */
module Parse {
  import opened Chars
  import opened Messages

  /** A word produced by splitting: non-empty and free of whitespace. */
  predicate IsWord(w: string) {
    |w| > 0 && NoSpace(w)
  }

  predicate AllWords(ws: seq<string>) {
    forall i :: 0 <= i < |ws| ==> IsWord(ws[i])
  }

  predicate AllSpace(s: string) {
    forall i :: 0 <= i < |s| ==> IsSpace(s[i])
  }

  /** The length of the run of non-whitespace characters that starts `s`. */
  function WordLength(s: string): (n: nat)
    ensures n <= |s|
    ensures NoSpace(s[..n])
    ensures n == |s| || IsSpace(s[n])
  {
    if s == [] || IsSpace(s[0]) then 0 else 1 + WordLength(s[1..])
  }

  /** str.split() with no separator: the maximal runs of non-whitespace
      characters, in order. Leading, trailing and repeated whitespace yields
      no empty words. */
  function Split(s: string): (words: seq<string>)
    ensures AllWords(words)
    decreases |s|
  {
    if s == [] then []
    else if IsSpace(s[0]) then Split(s[1..])
    else
      var n := WordLength(s);
      [s[..n]] + Split(s[n..])
  }

  /** The words joined by single spaces: a canonical line for those words. */
  function Join(ws: seq<string>): (line: string)
    ensures |ws| > 0 ==> |ws[0]| <= |line| && line[..|ws[0]|] == ws[0]
  {
    if |ws| == 0 then ""
    else if |ws| == 1 then ws[0]
    else ws[0] + " " + Join(ws[1..])
  }

  datatype ParseResult =
    | Parsed(command: string, args: seq<string>)
    | Failed(error: Message)

  /** parse_input under the input_error wrapper: the first word lower-cased is
      the command and the remaining words, in order, are its arguments; a line
      with no word at all gets the wrapper's fixed reply. */
  function ParseInput(line: string): (r: ParseResult)
    ensures r.Failed? ==> r.error == InvalidCommandOrArgument
    ensures r.Parsed? ==> IsWord(r.command) && AllWords(r.args)
    ensures r.Parsed? ==> forall i :: 0 <= i < |r.command| ==> !IsUpper(r.command[i])
  {
    var parts := Split(line);
    if parts == [] then Failed(InvalidCommandOrArgument)
    else Parsed(Lower(parts[0]), parts[1..])
  }

  /** Splitting yields no word exactly when the line is empty or all
      whitespace. */
  lemma {:induction false} SplitBlank(s: string)
    ensures Split(s) == [] <==> AllSpace(s)
    decreases |s|
  {
    if s != [] && IsSpace(s[0]) {
      SplitBlank(s[1..]);
      assert AllSpace(s) <==> AllSpace(s[1..]) by {
        if AllSpace(s[1..]) {
          forall i | 0 <= i < |s| ensures IsSpace(s[i]) {
            if i > 0 { assert s[i] == s[1..][i - 1]; }
          }
        }
      }
    }
  }

  /** Whitespace in front of a line does not change its words. */
  lemma {:induction false} SplitSkipsSpace(sp: string, s: string)
    requires AllSpace(sp)
    ensures Split(sp + s) == Split(s)
    decreases |sp|
  {
    if sp != [] {
      assert (sp + s)[0] == sp[0] && (sp + s)[1..] == sp[1..] + s;
      assert AllSpace(sp[1..]) by {
        forall i | 0 <= i < |sp[1..]| ensures IsSpace(sp[1..][i]) { assert sp[1..][i] == sp[i + 1]; }
      }
      assert Split(sp + s) == Split(sp[1..] + s);
      SplitSkipsSpace(sp[1..], s);
    } else {
      assert sp + s == s;
    }
  }

  lemma {:induction false} WordLengthOf(w: string, rest: string)
    requires NoSpace(w)
    requires rest == [] || IsSpace(rest[0])
    ensures WordLength(w + rest) == |w|
    decreases |w|
  {
    if w == [] {
      assert w + rest == rest;
    } else {
      assert (w + rest)[0] == w[0] && (w + rest)[1..] == w[1..] + rest;
      assert NoSpace(w[1..]) by {
        forall i | 0 <= i < |w[1..]| ensures !IsSpace(w[1..][i]) { assert w[1..][i] == w[i + 1]; }
      }
      WordLengthOf(w[1..], rest);
    }
  }

  /** A word followed by whitespace (or by nothing) is split off whole. */
  lemma SplitWordThen(w: string, rest: string)
    requires IsWord(w)
    requires rest == [] || IsSpace(rest[0])
    ensures Split(w + rest) == [w] + Split(rest)
  {
    var s := w + rest;
    var n := WordLength(s);
    WordLengthOf(w, rest);
    assert s[0] == w[0];
    assert s[..n] == w && s[n..] == rest;
  }

  /** Splitting undoes joining: the words of a line built from words are
      those words. */
  lemma {:induction false} SplitJoin(ws: seq<string>)
    requires AllWords(ws)
    ensures Split(Join(ws)) == ws
  {
    if |ws| == 1 {
      assert Join(ws) == ws[0] + [];
      SplitWordThen(ws[0], []);
    } else if |ws| > 1 {
      var tail := Join(ws[1..]);
      assert Join(ws) == ws[0] + (" " + tail);
      SplitWordThen(ws[0], " " + tail);
      assert (" " + tail)[1..] == tail;
      SplitJoin(ws[1..]);
    }
  }

  /** parse_input fails exactly on the empty or all-whitespace line, and then
      with the wrapper's reply. */
  lemma ParseInputBlank(line: string)
    ensures ParseInput(line).Failed? <==> AllSpace(line)
    ensures ParseInput(line).Failed? ==> Text(ParseInput(line).error)
                                          == "Invalid command or argument. Please try again."
  {
    SplitBlank(line);
  }

  /** On a line made of words, parse_input returns the first word lower-cased
      and the remaining words in their order. */
  lemma ParseInputWords(ws: seq<string>)
    requires |ws| > 0 && AllWords(ws)
    ensures ParseInput(Join(ws)) == Parsed(Lower(ws[0]), ws[1..])
  {
    SplitJoin(ws);
  }
}
