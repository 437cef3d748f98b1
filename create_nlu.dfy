/** The rule generator for the natural-language-understanding file: from
    the informable, requestable and binary slots of an ontology it appends
    one inform rule per binary informable and one request rule per
    requestable. File access is left out; the generator is a function
    from the three slot collections to the appended text. */
module CreateNlu {
  import opened PyStr

  /** `' '.join(name.split('_'))`: every underscore becomes a blank. */
  function HumanReadable(name: string): (r: string)
    ensures r == Replace(name, '_', ' ')
    ensures |r| == |name| && '_' !in r
  {
    JoinSplit(name, '_', ' ');
    Join(" ", Split(name, '_'))
  }

  /** The blanks that each backslash continuation line of the rule
      literal carries into the string. */
  const Indent: string := "                "

  /** An utterance line of an inform rule: two tabs and an opening
      quote. */
  function Utterance(u: string): (line: string)
    ensures |line| >= 3 && line[..3] == "\t\t\""
  {
    "\t\t\"" + u
  }

  /** The nine lines of an inform rule: a header, a `"true"` branch with
      three positive utterances and a `"false"` branch with three negated
      ones. Each line but the last ends in the blanks that follow the
      backslash continuation in the format string. */
  function InformLines(topic: string): (lines: seq<string>)
    ensures |lines| == 9
    ensures lines[1] == "\tif " + topic + " = \"true\" " + Indent
    ensures lines[5] == "\tif " + topic + " = \"false\" " + Indent
    ensures forall i :: 2 <= i < 5 || 6 <= i < 9 ==> |lines[i]| >= 3 && lines[i][..3] == "\t\t\""
  {
    var h := HumanReadable(topic);
    [ "rule inform(" + topic + ") " + Indent,
      "\tif " + topic + " = \"true\" " + Indent,
      Utterance("I am interested in " + h + "\"  " + Indent),
      Utterance("I would like to take a course about " + h + "\" " + Indent),
      Utterance("Show me courses about " + h + "\" " + Indent),
      "\tif " + topic + " = \"false\" " + Indent,
      Utterance("I am not interested in " + h + "\"  " + Indent),
      Utterance("I would not like to take a course about " + h + "\" " + Indent),
      Utterance("Dont show me courses about " + h + "\"") ]
  }

  /** The inform rule for `topic` without its leading line break: the
      format string is the nine lines separated by line breaks, and the
      last one ends in a line break too. */
  function InformBody(topic: string): string {
    Join("\n", InformLines(topic)) + "\n"
  }

  /** The start of a request rule, up to its utterance. */
  function RequestHead(requestable: string): string {
    "rule request(" + requestable + ")\n\t\""
  }

  /** The request rule for `requestable` without its leading line break:
      a binary slot is asked about, any other slot is asked for. The two
      format strings `rule request(R)` and `\n\t"…"\n` are regrouped here
      with the opening quote moved into the head. */
  function RequestBody(requestable: string, binaries: set<string>): (rule: string)
    ensures var n := |RequestHead(requestable)|;
      && |rule| > n
      && rule[..n] == RequestHead(requestable)
      && (requestable in binaries ==> rule[n..] == "is it about " + HumanReadable(requestable) + "\"\n")
      && (requestable !in binaries ==> rule[n..] == "show me the " + HumanReadable(requestable) + "\"\n")
      && (requestable in binaries <==> rule[n] == 'i')
  {
    var h := HumanReadable(requestable);
    var phrase := if requestable in binaries then "is it about " else "show me the ";
    RequestHead(requestable) + (phrase + h + "\"\n")
  }

  /** The informables that get an inform rule: the binary ones, in
      informable order. */
  function InformTopics(topics: seq<string>, binaries: set<string>): (r: seq<string>)
    ensures |r| <= |topics|
  {
    if topics == [] then []
    else (if topics[0] in binaries then [topics[0]] else []) + InformTopics(topics[1..], binaries)
  }

  lemma {:induction false} InformTopicsMembers(topics: seq<string>, binaries: set<string>)
    ensures forall t :: t in InformTopics(topics, binaries) <==> t in topics && t in binaries
  {
    if topics != [] {
      InformTopicsMembers(topics[1..], binaries);
      assert topics == [topics[0]] + topics[1..];
    }
  }

  /** Filtering distributes over concatenation, so the rules keep the
      informables' relative order. */
  lemma {:induction false} InformTopicsConcat(a: seq<string>, b: seq<string>, binaries: set<string>)
    ensures InformTopics(a + b, binaries) == InformTopics(a, binaries) + InformTopics(b, binaries)
  {
    if a != [] {
      assert (a + b)[1..] == a[1..] + b;
      InformTopicsConcat(a[1..], b, binaries);
    } else {
      assert a + b == b;
    }
  }

  function InformBodies(topics: seq<string>): (r: seq<string>)
    ensures |r| == |topics|
  {
    seq(|topics|, i requires 0 <= i < |topics| => InformBody(topics[i]))
  }

  function RequestBodies(requestables: seq<string>, binaries: set<string>): (r: seq<string>)
    ensures |r| == |requestables|
  {
    seq(|requestables|, i requires 0 <= i < |requestables| => RequestBody(requestables[i], binaries))
  }

  /** The rules written one after the other, the first one preceded by
      `lineBreak` and every later one by a single line break. */
  function Emit(rules: seq<string>, lineBreak: string): string {
    if rules == [] then "" else lineBreak + rules[0] + Emit(rules[1..], "\n")
  }

  /** A section is its opening line break followed by its rules joined
      with single line breaks. */
  lemma {:induction false} EmitJoin(rules: seq<string>, lineBreak: string)
    requires rules != []
    ensures Emit(rules, lineBreak) == lineBreak + Join("\n", rules)
  {
    if |rules| > 1 {
      EmitJoin(rules[1..], "\n");
    }
  }

  /** The text the generator appends: the inform section, then the
      request section, each opened by a blank line. */
  function NluText(topics: seq<string>, requestables: seq<string>, binaries: set<string>): string {
    Emit(InformBodies(InformTopics(topics, binaries)), "\n\n")
    + Emit(RequestBodies(requestables, binaries), "\n\n")
  }

  lemma EmitCons(rule: string, rules: seq<string>, lineBreak: string)
    ensures Emit([rule] + rules, lineBreak) == lineBreak + rule + Emit(rules, "\n")
  {
    assert ([rule] + rules)[1..] == rules;
  }

  /** One step of the inform loop: a binary topic is written with the
      current line break, any other topic is skipped. */
  lemma InformStep(topics: seq<string>, i: nat, binaries: set<string>, lineBreak: string)
    requires i < |topics|
    ensures var rest := InformBodies(InformTopics(topics[i + 1..], binaries));
      Emit(InformBodies(InformTopics(topics[i..], binaries)), lineBreak)
      == if topics[i] in binaries then lineBreak + InformBody(topics[i]) + Emit(rest, "\n")
         else Emit(rest, lineBreak)
  {
    assert topics[i..][1..] == topics[i + 1..];
    var rest := InformTopics(topics[i + 1..], binaries);
    assert InformTopics(topics[i..], binaries)
      == (if topics[i] in binaries then [topics[i]] else []) + rest;
    if topics[i] in binaries {
      assert InformTopics(topics[i..], binaries) == [topics[i]] + rest;
      assert InformBodies([topics[i]] + rest) == [InformBody(topics[i])] + InformBodies(rest);
      EmitCons(InformBody(topics[i]), InformBodies(rest), lineBreak);
    } else {
      assert InformTopics(topics[i..], binaries) == rest;
    }
  }

  /** The inform loop: a rule for each binary informable, in order. */
  method WriteInformRules(topics: seq<string>, binaries: set<string>) returns (text: string)
    ensures text == Emit(InformBodies(InformTopics(topics, binaries)), "\n\n")
  {
    text := "";
    var lineBreak := "\n\n";
    for i := 0 to |topics|
      invariant text + Emit(InformBodies(InformTopics(topics[i..], binaries)), lineBreak)
        == Emit(InformBodies(InformTopics(topics, binaries)), "\n\n")
    {
      InformStep(topics, i, binaries, lineBreak);
      if topics[i] in binaries {
        var informRule := lineBreak + InformBody(topics[i]);
        ConcatAssoc(text, informRule, Emit(InformBodies(InformTopics(topics[i + 1..], binaries)), "\n"));
        lineBreak := "\n";
        text := text + informRule;
      }
    }
    assert topics[|topics|..] == [];
  }

  /** One step of the request loop: the rule of the next requestable is
      written with the current line break. */
  lemma RequestStep(requestables: seq<string>, j: nat, binaries: set<string>, lineBreak: string)
    requires j < |requestables|
    ensures Emit(RequestBodies(requestables[j..], binaries), lineBreak)
      == lineBreak + RequestBody(requestables[j], binaries)
         + Emit(RequestBodies(requestables[j + 1..], binaries), "\n")
  {
    var rest := RequestBodies(requestables[j + 1..], binaries);
    assert RequestBodies(requestables[j..], binaries) == [RequestBody(requestables[j], binaries)] + rest;
    EmitCons(RequestBody(requestables[j], binaries), rest, lineBreak);
  }

  /** The request loop: one rule per requestable, in order. */
  method WriteRequestRules(requestables: seq<string>, binaries: set<string>) returns (text: string)
    ensures text == Emit(RequestBodies(requestables, binaries), "\n\n")
  {
    text := "";
    var lineBreak := "\n\n";
    for j := 0 to |requestables|
      invariant text + Emit(RequestBodies(requestables[j..], binaries), lineBreak)
        == Emit(RequestBodies(requestables, binaries), "\n\n")
    {
      RequestStep(requestables, j, binaries, lineBreak);
      var requestRule := lineBreak + RequestBody(requestables[j], binaries);
      ConcatAssoc(text, requestRule, Emit(RequestBodies(requestables[j + 1..], binaries), "\n"));
      lineBreak := "\n";
      text := text + requestRule;
    }
    assert requestables[|requestables|..] == [];
  }

  /** The main block: the inform section, then the request section, each
      loop starting again from a blank line. */
  method GenerateNlu(topics: seq<string>, requestables: seq<string>, binaries: set<string>)
    returns (text: string)
    ensures text == NluText(topics, requestables, binaries)
  {
    var informText := WriteInformRules(topics, binaries);
    var requestText := WriteRequestRules(requestables, binaries);
    text := informText + requestText;
  }

  /** What the generated text holds: an inform rule for exactly the
      binary informables (all of them, in order, when every informable is
      binary) and one request rule per requestable. */
  lemma NluContents(topics: seq<string>, requestables: seq<string>, binaries: set<string>)
    ensures var informed := InformTopics(topics, binaries);
      forall t :: t in informed <==> t in topics && t in binaries
    ensures (forall t :: t in topics ==> t in binaries) ==> InformTopics(topics, binaries) == topics
    ensures |RequestBodies(requestables, binaries)| == |requestables|
  {
    InformTopicsMembers(topics, binaries);
    if forall t :: t in topics ==> t in binaries {
      AllInformed(topics, binaries);
    }
  }

  lemma {:induction false} AllInformed(topics: seq<string>, binaries: set<string>)
    requires forall t :: t in topics ==> t in binaries
    ensures InformTopics(topics, binaries) == topics
  {
    if topics != [] {
      assert topics[0] in binaries;
      AllInformed(topics[1..], binaries);
    }
  }
}
