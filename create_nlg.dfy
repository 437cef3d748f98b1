/** The template generator for the natural-language-generation file: it
    appends a header line and one request template per requestable slot,
    from the slot `american_literature_culture` to the end of the list.
    File access is left out; the generator is a function from the
    requestable list to the appended text. */
module CreateNlg {
  import opened Wrappers
  import opened PyStr

  datatype NlgError =
    | MissingAttribute(name: string)  // an attribute the argument parser never defined
    | MarkerAbsent                    // `list.index` finds no marker slot

  /** What one run leaves behind: the text appended to the output file,
      and the error that ended the run, if any. */
  datatype Outcome = Outcome(appended: string, error: Option<NlgError>)

  /** The first slot that gets a template. */
  const Marker: string := "american_literature_culture"

  const Header: string :=
    "\n# ------------------------System Requestable Topics-------------------------------#\n\n"

  /** The attributes of the parsed command line: the two positional
      arguments and nothing else. */
  const ParserAttributes: set<string> := {"ontology", "nlg"}

  /** The two lines written for one slot, and the blank line after them. */
  function Template(slot: string): string {
    "template request(" + slot + ")\n" + "\tShall the course be related to " + slot + "?\n\n"
  }

  /** The slot name can be read back from both lines of its template. */
  lemma TemplateSlot(slot: string)
    ensures var t := Template(slot);
      && |t| == 2 * |slot| + 54
      && t[..17] == "template request("
      && t[17..17 + |slot|] == slot
      && t[51 + |slot|..51 + 2 * |slot|] == slot
      && t[|t| - 3..] == "?\n\n"
  {
    var a := "template request(" + slot;
    var b := a + ")\n" + "\tShall the course be related to ";
    var c := b + slot;
    assert Template(slot) == c + "?\n\n";
    assert |b| == 51 + |slot|;
    assert c[|b|..] == slot;
    assert a[17..] == slot;
  }

  /** `xs.index(x)`: the position of the first occurrence. */
  function IndexOf(xs: seq<string>, x: string): (r: Option<nat>)
    ensures r.None? <==> x !in xs
    ensures r.Some? ==> r.value < |xs| && xs[r.value] == x && x !in xs[..r.value]
  {
    if xs == [] then None
    else if xs[0] == x then Some(0)
    else match IndexOf(xs[1..], x)
      case None => None
      case Some(i) =>
        assert xs[..i + 1] == [xs[0]] + xs[1..][..i];
        Some(i + 1)
  }

  /** The templates of `slots`, in list order. */
  function Templates(slots: seq<string>): string {
    if slots == [] then "" else Templates(slots[..|slots| - 1]) + Template(slots[|slots| - 1])
  }

  lemma {:induction false} TemplatesConcat(a: seq<string>, b: seq<string>)
    ensures Templates(a + b) == Templates(a) + Templates(b)
  {
    if b == [] {
      assert a + b == a;
    } else {
      var init := b[..|b| - 1];
      assert (a + b)[..|a + b| - 1] == a + init;
      assert (a + b)[|a + b| - 1] == b[|b| - 1];
      TemplatesConcat(a, init);
      assert Templates(a + b) == Templates(a + init) + Template(b[|b| - 1]);
      assert Templates(b) == Templates(init) + Template(b[|b| - 1]);
      ConcatAssoc(Templates(a), Templates(init), Template(b[|b| - 1]));
    }
  }

  /** The main block once its file is open: the header is written first,
      so a run whose `list.index` fails has already appended it. */
  function NlgText(requestables: seq<string>): Outcome {
    match IndexOf(requestables, Marker)
    case None => Outcome(Header, Some(MarkerAbsent))
    case Some(i) => Outcome(Header + Templates(requestables[i..]), None)
  }

  /** The loop writing two lines per slot of the sliced list. */
  method WriteTemplates(slots: seq<string>) returns (text: string)
    ensures text == Templates(slots)
  {
    text := "";
    for i := 0 to |slots|
      invariant text == Templates(slots[..i])
    {
      assert slots[..i + 1][..i] == slots[..i];
      assert Templates(slots[..i + 1]) == Templates(slots[..i]) + Template(slots[i]);
      var first := "template request(" + slots[i] + ")\n";
      var second := "\tShall the course be related to " + slots[i] + "?\n\n";
      assert Template(slots[i]) == first + second;
      text := text + first;
      text := text + second;
    }
    assert slots[..|slots|] == slots;
  }

  /** Writing the header, then every slot from the marker onward. */
  method GenerateNlg(requestables: seq<string>) returns (r: Outcome)
    ensures r == NlgText(requestables)
  {
    var text := Header;
    var start := IndexOf(requestables, Marker);
    if start.None? {
      return Outcome(text, Some(MarkerAbsent));
    }
    var templates := WriteTemplates(requestables[start.value..]);
    r := Outcome(text + templates, None);
  }

  /** Generation fails exactly when the marker slot is absent, and then
      only the header has been appended; otherwise the text is the header
      followed by one template per slot from the marker's first occurrence
      to the end, the marker's own first. */
  lemma NlgTextSpec(requestables: seq<string>)
    ensures NlgText(requestables).error.Some? <==> Marker !in requestables
    ensures NlgText(requestables).error.Some? ==>
      NlgText(requestables).error == Some(MarkerAbsent) && NlgText(requestables).appended == Header
    ensures NlgText(requestables).error.None? ==>
      exists i :: 0 <= i < |requestables| && requestables[i] == Marker && Marker !in requestables[..i]
        && NlgText(requestables).appended == Header + Template(Marker) + Templates(requestables[i + 1..])
  {
    var start := IndexOf(requestables, Marker);
    if start.Some? {
      var i := start.value;
      var rest := requestables[i + 1..];
      assert requestables[i..] == [Marker] + rest;
      TemplatesConcat([Marker], rest);
      assert Templates([Marker]) == Template(Marker) by {
        assert [Marker][..0] == [];
      }
      ConcatAssoc(Header, Template(Marker), Templates(rest));
    }
  }

  /** The script as written opens the file named by attribute `nlu`,
      which the parser never defines, so it fails before appending anything. */
  function ScriptAsWritten(requestables: seq<string>): Outcome {
    if "nlu" in ParserAttributes then NlgText(requestables) else Outcome("", Some(MissingAttribute("nlu")))
  }

  lemma ScriptAsWrittenFails(requestables: seq<string>)
    ensures ScriptAsWritten(requestables) == Outcome("", Some(MissingAttribute("nlu")))
  {
    assert "nlu" != "ontology" && "nlu" != "nlg";
  }

  /** The script opening the file named by attribute `nlg`, the argument
      whose existence it checks beforehand. */
  function Script(requestables: seq<string>): Outcome {
    if "nlg" in ParserAttributes then NlgText(requestables) else Outcome("", Some(MissingAttribute("nlg")))
  }

  lemma ScriptGenerates(requestables: seq<string>)
    ensures Script(requestables) == NlgText(requestables)
    ensures Script(requestables).error.None? <==> Marker in requestables
  {
    NlgTextSpec(requestables);
  }
}
