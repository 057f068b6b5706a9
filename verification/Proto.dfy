/** The TSV wire format shared by the daemon and the client: one line per
    message, fields separated by tabs.  `split_tabs` and `join_tabs` are loops in
    the source; here they are methods proved against `Fields` and `Joined`, and
    those two are shown to be inverse on exactly the lists the wire can carry. */
module Proto {

  /** One enriched candidate: surface form, reading and part of speech. */
  datatype Candidate = Candidate(surface: string, reading: string, hinsi: string)

  /** The result of a conversion. */
  datatype ConvertResult = ConvertResult(commit: string, candidates: seq<string>, candidatesEx: seq<Candidate>)

  const EMPTY_RESULT := ConvertResult("", [], [])

  /** Both lists cut to a positive maximum; any other maximum means no cut. */
  function Capped(r: ConvertResult, max: int): ConvertResult {
    if max <= 0 then r
    else r.(candidates := if |r.candidates| > max then r.candidates[..max] else r.candidates,
            candidatesEx := if |r.candidatesEx| > max then r.candidatesEx[..max] else r.candidatesEx)
  }

  predicate CleanChar(c: char) {
    c != '\t' && c != '\r' && c != '\n'
  }

  /** Text that can be one field of a line. */
  predicate Clean(s: string) {
    forall i :: 0 <= i < |s| ==> CleanChar(s[i])
  }

  predicate AllClean(fs: seq<string>) {
    forall i :: 0 <= i < |fs| ==> Clean(fs[i])
  }

  /** What `split_tabs` computes, one character at a time from the left. */
  function Fields(line: string): (fs: seq<string>)
    ensures |fs| > 0 && AllClean(fs)
  {
    if line == "" then [""]
    else
      var fs, c := Fields(line[..|line| - 1]), line[|line| - 1];
      if c == '\t' then fs + [""]
      else if CleanChar(c) then fs[|fs| - 1 := fs[|fs| - 1] + [c]]
      else fs
  }

  /** The fields of a message separated by tabs, without the final newline. */
  function Joined(fs: seq<string>): string {
    if |fs| == 0 then ""
    else if |fs| == 1 then fs[0]
    else Joined(fs[..|fs| - 1]) + "\t" + fs[|fs| - 1]
  }

  /** A line without its carriage returns and newlines. */
  function Stripped(line: string): string {
    if line == "" then ""
    else
      var c := line[|line| - 1];
      Stripped(line[..|line| - 1]) + if c == '\r' || c == '\n' then "" else [c]
  }

  method SplitTabs(line: string) returns (out: seq<string>)
    ensures out == Fields(line)
  {
    out := [];
    var cur := "";
    for i := 0 to |line|
      invariant out + [cur] == Fields(line[..i])
    {
      var c := line[i];
      assert line[..i + 1][..i] == line[..i];
      if c == '\t' {
        out := out + [cur];
        cur := "";
      } else if c != '\r' && c != '\n' {
        assert (out + [cur])[|out| := cur + [c]] == out + [cur + [c]];
        cur := cur + [c];
      }
    }
    assert line[..|line|] == line;
    out := out + [cur];
  }

  method JoinTabs(fields: seq<string>) returns (out: string)
    ensures out == Joined(fields) + "\n"
  {
    out := "";
    for i := 0 to |fields|
      invariant out == Joined(fields[..i])
    {
      assert fields[..i + 1][..i] == fields[..i];
      if i != 0 {
        out := out + "\t";
      }
      out := out + fields[i];
    }
    assert fields[..|fields|] == fields;
    out := out + "\n";
  }

  /** Appending clean text only extends the last field. */
  lemma {:induction false} FieldsOfExtended(line: string, text: string)
    requires Clean(text)
    ensures var fs := Fields(line); Fields(line + text) == fs[|fs| - 1 := fs[|fs| - 1] + text]
  {
    var fs := Fields(line);
    if text == "" {
      assert line + text == line && fs[|fs| - 1] + text == fs[|fs| - 1];
    } else {
      var init := text[..|text| - 1];
      FieldsOfExtended(line, init);
      assert (line + text)[..|line + text| - 1] == line + init;
      var m := |fs| - 1;
      assert (fs[m] + init) + [text[|text| - 1]] == fs[m] + text;
    }
  }

  /** Splitting undoes joining. */
  lemma {:induction false} FieldsOfJoined(fs: seq<string>)
    requires |fs| > 0 && AllClean(fs)
    ensures Fields(Joined(fs)) == fs
  {
    var last := fs[|fs| - 1];
    if |fs| == 1 {
      FieldsOfExtended("", last);
      assert "" + last == last;
    } else {
      var init := fs[..|fs| - 1];
      FieldsOfJoined(init);
      var head := Joined(init) + "\t";
      assert head[..|head| - 1] == Joined(init);
      assert Fields(head) == init + [""];
      FieldsOfExtended(head, last);
      assert "" + last == last;
      assert (init + [""])[|init| := last] == fs;
    }
  }

  /** The exact range of the round trip: a list survives the wire precisely when
      it is non-empty and none of its fields holds a tab, CR or LF. */
  lemma SplitJoinExact(fs: seq<string>)
    ensures Fields(Joined(fs)) == fs <==> |fs| > 0 && AllClean(fs)
  {
    if |fs| > 0 && AllClean(fs) {
      FieldsOfJoined(fs);
    }
  }

  /** Joining undoes splitting, up to the CR and LF characters that are dropped. */
  lemma {:induction false} JoinedOfFields(line: string)
    ensures Joined(Fields(line)) == Stripped(line)
  {
    if line != "" {
      var init, c := line[..|line| - 1], line[|line| - 1];
      JoinedOfFields(init);
      var fs := Fields(init);
      if c == '\t' {
        assert (fs + [""])[..|fs|] == fs;
        assert Joined(fs + [""]) == Joined(fs) + "\t" + "";
      } else if CleanChar(c) {
        var gs := fs[|fs| - 1 := fs[|fs| - 1] + [c]];
        assert gs[..|gs| - 1] == fs[..|fs| - 1];
      }
    }
  }

  /** Lists of clean fields are told apart by their lines. */
  lemma JoinedIsInjective(fs: seq<string>, gs: seq<string>)
    requires |fs| > 0 && AllClean(fs) && |gs| > 0 && AllClean(gs)
    ensures Joined(fs) == Joined(gs) ==> fs == gs
  {
    FieldsOfJoined(fs);
    FieldsOfJoined(gs);
  }

  /** A message of clean fields holds no newline, so it is one line on the wire. */
  lemma {:induction false} JoinedHasNoNewline(fs: seq<string>)
    requires AllClean(fs)
    ensures '\n' !in Joined(fs)
  {
    if |fs| > 1 {
      JoinedHasNoNewline(fs[..|fs| - 1]);
    }
  }
}
