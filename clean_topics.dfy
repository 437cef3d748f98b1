/**
 * Cleaning of the topic n-gram list: digits and surrounding non-word
 * characters are removed from each n-gram, short results are dropped and
 * repeated n-grams are merged into an insertion-ordered count table that
 * is written back as `ngram<TAB>count<NEWLINE>` lines.
 */
module CleanTopics {
  import opened Wrappers
  import opened PyStr

  /** `clean_numbers`: every digit removed, then stripped. */
  function CleanNumbers(text: string): (r: string)
    ensures forall i :: 0 <= i < |r| ==> !IsDigit(r[i])
    ensures r == [] || (!IsSpace(r[0]) && !IsSpace(r[|r| - 1]))
  {
    var s := Remove(text, IsDigit);
    StripBounds(s);
    TrimStartSuffix(s, IsSpace);
    TrimEndPrefix(TrimStart(s, IsSpace), IsSpace);
    Strip(s)
  }

  /** `clean_non_words`: the leading run and the trailing run of non-word
      characters removed, then stripped. */
  function CleanNonWords(text: string): (r: string)
    ensures r == [] || (IsWordChar(r[0]) && IsWordChar(r[|r| - 1]))
  {
    var s := TrimEnd(TrimStart(text, IsNonWordChar), IsNonWordChar);
    TrimEndPrefix(TrimStart(text, IsNonWordChar), IsNonWordChar);
    assert s != [] ==> s[0] == TrimStart(text, IsNonWordChar)[0];
    StripUnchanged(s);
    Strip(s)
  }

  /** Cleaning numbers twice is cleaning them once. */
  lemma CleanNumbersIdempotent(text: string)
    ensures CleanNumbers(CleanNumbers(text)) == CleanNumbers(text)
  {
    var r := CleanNumbers(text);
    assert Remove(r, IsDigit) == r;
    StripUnchanged(r);
  }

  /** Cleaning non-word ends twice is cleaning them once. */
  lemma CleanNonWordsIdempotent(text: string)
    ensures CleanNonWords(CleanNonWords(text)) == CleanNonWords(text)
  {
    var r := CleanNonWords(text);
    assert TrimStart(r, IsNonWordChar) == r;
    assert TrimEnd(r, IsNonWordChar) == r;
    StripUnchanged(r);
  }

  /** `clean_non_words` applied to every token, in order. */
  function CleanAll(tokens: seq<string>): (r: seq<string>)
    ensures |r| == |tokens|
  {
    if tokens == [] then []
    else CleanAll(tokens[..|tokens| - 1]) + [CleanNonWords(tokens[|tokens| - 1])]
  }

  /** The n-gram field of a line after cleaning: numbers removed, then
      every white-space separated token cleaned and the tokens joined by
      single blanks. */
  function CleanNgrams(ngrams: string): string {
    Join(" ", CleanAll(SplitWhitespace(CleanNumbers(ngrams))))
  }

  lemma CleanNonWordsChars(text: string, c: char)
    requires c in CleanNonWords(text)
    ensures c in text
  {
    var a := TrimStart(text, IsNonWordChar);
    var b := TrimEnd(a, IsNonWordChar);
    TrimStartSuffix(text, IsNonWordChar);
    TrimEndPrefix(a, IsNonWordChar);
    assert CleanNonWords(text) == b;
    assert c in a;
  }

  /** Cleaning tokens free of white space leaves them free of it. */
  lemma {:induction false} CleanAllNoSpace(tokens: seq<string>)
    requires forall i :: 0 <= i < |tokens| ==> IsToken(tokens[i])
    ensures forall i :: 0 <= i < |tokens| ==> forall c :: c in CleanAll(tokens)[i] ==> !IsSpace(c)
  {
    if tokens != [] {
      var init := tokens[..|tokens| - 1];
      var last := tokens[|tokens| - 1];
      CleanAllNoSpace(init);
      forall c | c in CleanNonWords(last)
        ensures !IsSpace(c)
      {
        CleanNonWordsChars(last, c);
      }
    }
  }

  /** A cleaned n-gram string holds no white space but single blanks, so
      neither a tab nor a line break. */
  lemma CleanNgramsNoBreaks(ngrams: string)
    ensures forall c :: c in CleanNgrams(ngrams) ==> c == ' ' || !IsSpace(c)
  {
    var tokens := SplitWhitespace(CleanNumbers(ngrams));
    var parts := CleanAll(tokens);
    CleanAllNoSpace(tokens);
    forall c | c in CleanNgrams(ngrams)
      ensures c == ' ' || !IsSpace(c)
    {
      JoinChars(" ", parts, c);
    }
  }

  /** The inner loop of the main block: every token cleaned, in order. */
  method CleanTokens(tokens: seq<string>) returns (parts: seq<string>)
    ensures parts == CleanAll(tokens)
  {
    parts := [];
    var i := 0;
    while i < |tokens|
      invariant 0 <= i <= |tokens|
      invariant parts == CleanAll(tokens[..i])
    {
      assert tokens[..i + 1][..i] == tokens[..i];
      parts := parts + [CleanNonWords(tokens[i])];
      i := i + 1;
    }
    assert tokens[..i] == tokens;
  }

  /** The cleaning of the n-gram field of one line. */
  method CleanLineNgrams(ngrams: string) returns (cleaned: string)
    ensures cleaned == CleanNgrams(ngrams)
  {
    var tokens := SplitWhitespace(CleanNumbers(ngrams));
    var parts := CleanTokens(tokens);
    cleaned := Join(" ", parts);
  }

  /** The cleaned n-grams of a line and what `int` makes of its count
      field (`None` where it raises). */
  datatype Entry = Entry(ngrams: string, count: Option<int>)

  /** A line takes part when its stripped text splits into exactly two
      tab-separated fields. */
  function LineEntry(line: string): Option<Entry> {
    var fields := Split(Strip(line), '\t');
    if |fields| == 2 then Some(Entry(CleanNgrams(fields[0]), ParseInt(fields[1]))) else None
  }

  /** A line takes part exactly when its stripped text holds one tab. */
  lemma LineEntryOneTab(line: string)
    ensures LineEntry(line).Some? <==> Count(Strip(line), '\t') == 1
  {
    SplitCount(Strip(line), '\t');
  }

  /** The entry a line stores or updates: it takes part and its cleaned
      n-gram string is longer than 3 characters. */
  function Kept(line: string): (r: Option<Entry>)
    ensures r.Some? ==> |r.value.ngrams| > 3
  {
    match LineEntry(line)
    case Some(e) => if |e.ngrams| > 3 then Some(e) else None
    case None => None
  }

  /** The insertion-ordered count table: keys in insertion order and the
      count of each key. */
  datatype Table = Table(keys: seq<string>, counts: map<string, int>)

  ghost predicate ValidTable(t: Table) {
    && (forall i, j :: 0 <= i < j < |t.keys| ==> t.keys[i] != t.keys[j])
    && (forall k :: k in t.counts <==> k in t.keys)
  }

  const EmptyTable := Table([], map[])

  /** The update for one kept line: a new key is appended with the line's
      own count, which `int` must read; a key already present gains 1 and
      its line's count field is never read. */
  function AddEntry(t: Table, e: Entry): (r: Option<Table>)
    requires ValidTable(t)
    ensures r.Some? ==> ValidTable(r.value)
    ensures e.ngrams in t.counts ==>
      r == Some(Table(t.keys, t.counts[e.ngrams := t.counts[e.ngrams] + 1]))
    ensures e.ngrams !in t.counts ==>
      && (r.Some? <==> e.count.Some?)
      && (r.Some? ==> r.value == Table(t.keys + [e.ngrams], t.counts[e.ngrams := e.count.value]))
  {
    if e.ngrams !in t.counts then
      match e.count
      case Some(n) => Some(Table(t.keys + [e.ngrams], t.counts[e.ngrams := n]))
      case None => None
    else
      Some(Table(t.keys, t.counts[e.ngrams := t.counts[e.ngrams] + 1]))
  }

  /** What each line stores or updates, line by line. */
  function KeptPerLine(lines: seq<string>): (ks: seq<Option<Entry>>)
    ensures |ks| == |lines|
  {
    seq(|lines|, i requires 0 <= i < |lines| => Kept(lines[i]))
  }

  /** The present values, in order. */
  function Present(ks: seq<Option<Entry>>): seq<Entry> {
    if ks == [] then []
    else
      var last := ks[|ks| - 1];
      Present(ks[..|ks| - 1]) + (if last.Some? then [last.value] else [])
  }

  /** The entries of the kept lines, in line order. */
  function KeptEntries(lines: seq<string>): seq<Entry> {
    Present(KeptPerLine(lines))
  }

  /** The table after the kept entries, or `None` where `int(count)`
      raises. */
  function FoldEntries(es: seq<Entry>): (r: Option<Table>)
    ensures r.Some? ==> ValidTable(r.value)
  {
    if es == [] then Some(EmptyTable)
    else
      match FoldEntries(es[..|es| - 1])
      case None => None
      case Some(t) => AddEntry(t, es[|es| - 1])
  }

  /** The table the main loop builds from the lines of the file. */
  function Aggregate(lines: seq<string>): (r: Option<Table>)
    ensures r.Some? ==> ValidTable(r.value)
  {
    FoldEntries(KeptEntries(lines))
  }

  /** The keys of the entries, each once, in order of first occurrence. */
  function FirstOccurrences(es: seq<Entry>): seq<string> {
    if es == [] then []
    else
      var init := FirstOccurrences(es[..|es| - 1]);
      var k := es[|es| - 1].ngrams;
      if k in init then init else init + [k]
  }

  /** Number of entries with key `k`. */
  function Occurrences(es: seq<Entry>, k: string): nat {
    if es == [] then 0
    else Occurrences(es[..|es| - 1], k) + (if es[|es| - 1].ngrams == k then 1 else 0)
  }

  /** The count of the first entry with key `k`. */
  function FirstCount(es: seq<Entry>, k: string): Option<int>
    requires k in FirstOccurrences(es)
  {
    var init := es[..|es| - 1];
    if k in FirstOccurrences(init) then FirstCount(init, k) else es[|es| - 1].count
  }

  lemma {:induction false} FirstOccurrencesMembers(es: seq<Entry>)
    ensures forall k :: k in FirstOccurrences(es) <==> Occurrences(es, k) > 0
  {
    if es != [] {
      FirstOccurrencesMembers(es[..|es| - 1]);
    }
  }

  /** A table that summarises entries `es`: its keys are their keys in
      order of first occurrence, and each count is the first entry's count
      plus one per later entry with the same key. */
  ghost predicate Summarises(t: Table, es: seq<Entry>) {
    && ValidTable(t)
    && t.keys == FirstOccurrences(es)
    && forall k :: k in t.counts ==>
         k in FirstOccurrences(es) &&
         FirstCount(es, k).Some? &&
         t.counts[k] == FirstCount(es, k).value + Occurrences(es, k) - 1
  }

  /** Every first count field of the entries is an integer. */
  ghost predicate FirstCountsParse(es: seq<Entry>) {
    forall k :: k in FirstOccurrences(es) ==> FirstCount(es, k).Some?
  }

  lemma FirstCountAppendOld(es: seq<Entry>, e: Entry, k: string)
    requires k in FirstOccurrences(es)
    ensures k in FirstOccurrences(es + [e]) && FirstCount(es + [e], k) == FirstCount(es, k)
  {
    assert (es + [e])[..|es|] == es;
  }

  lemma FirstCountAppendNew(es: seq<Entry>, e: Entry)
    requires e.ngrams !in FirstOccurrences(es)
    ensures FirstOccurrences(es + [e]) == FirstOccurrences(es) + [e.ngrams]
    ensures FirstCount(es + [e], e.ngrams) == e.count
  {
    assert (es + [e])[..|es|] == es;
  }

  lemma OccurrencesAppend(es: seq<Entry>, e: Entry, k: string)
    ensures Occurrences(es + [e], k) == Occurrences(es, k) + (if e.ngrams == k then 1 else 0)
  {
    assert (es + [e])[..|es|] == es;
  }

  lemma AddKnownSummarises(t: Table, es: seq<Entry>, e: Entry)
    requires Summarises(t, es) && FirstCountsParse(es)
    requires e.ngrams in FirstOccurrences(es)
    ensures FirstCountsParse(es + [e])
    ensures Summarises(Table(t.keys, t.counts[e.ngrams := t.counts[e.ngrams] + 1]), es + [e])
  {
    var es' := es + [e];
    assert es'[..|es|] == es;
    assert FirstOccurrences(es') == FirstOccurrences(es);
    forall k | k in FirstOccurrences(es')
      ensures FirstCount(es', k) == FirstCount(es, k)
    {
      FirstCountAppendOld(es, e, k);
    }
    var t' := Table(t.keys, t.counts[e.ngrams := t.counts[e.ngrams] + 1]);
    forall k | k in t'.counts
      ensures t'.counts[k] == FirstCount(es', k).value + Occurrences(es', k) - 1
    {
      OccurrencesAppend(es, e, k);
    }
  }

  lemma AddNewSummarises(t: Table, es: seq<Entry>, e: Entry)
    requires Summarises(t, es) && FirstCountsParse(es)
    requires e.ngrams !in FirstOccurrences(es)
    ensures FirstCountsParse(es + [e]) <==> e.count.Some?
    ensures e.count.Some? ==>
      Summarises(Table(t.keys + [e.ngrams], t.counts[e.ngrams := e.count.value]), es + [e])
  {
    var es' := es + [e];
    FirstCountAppendNew(es, e);
    FirstOccurrencesMembers(es);
    forall k | k in FirstOccurrences(es)
      ensures FirstCount(es', k) == FirstCount(es, k)
    {
      FirstCountAppendOld(es, e, k);
    }
    if e.count.Some? {
      var t' := Table(t.keys + [e.ngrams], t.counts[e.ngrams := e.count.value]);
      forall k | k in t'.counts
        ensures k in FirstOccurrences(es')
        ensures t'.counts[k] == FirstCount(es', k).value + Occurrences(es', k) - 1
      {
        OccurrencesAppend(es, e, k);
      }
    }
  }

  /** One kept line keeps the summary, and fails exactly when it brings a
      new key whose count field is not an integer. */
  lemma AddEntrySummarises(t: Table, es: seq<Entry>, e: Entry)
    requires Summarises(t, es) && FirstCountsParse(es)
    ensures AddEntry(t, e).Some? <==> FirstCountsParse(es + [e])
    ensures AddEntry(t, e).Some? ==> Summarises(AddEntry(t, e).value, es + [e])
  {
    assert forall k :: k in t.counts <==> k in FirstOccurrences(es);
    if e.ngrams in FirstOccurrences(es) {
      AddKnownSummarises(t, es, e);
    } else {
      AddNewSummarises(t, es, e);
    }
  }

  /** The outcome of the fold in terms of the entries alone: the table
      exists iff the first count field of every key is an integer; its
      keys are the n-gram strings in order of first occurrence; and each
      count is the first entry's count plus one for every later entry with
      the same n-grams. */
  lemma {:induction false} FoldCounts(es: seq<Entry>)
    ensures FoldEntries(es).Some? <==> FirstCountsParse(es)
    ensures FoldEntries(es).Some? ==> Summarises(FoldEntries(es).value, es)
  {
    if es != [] {
      var init := es[..|es| - 1];
      var e := es[|es| - 1];
      assert es == init + [e];
      FoldCounts(init);
      if FoldEntries(init).Some? {
        AddEntrySummarises(FoldEntries(init).value, init, e);
      } else {
        var k :| k in FirstOccurrences(init) && FirstCount(init, k).None?;
        FirstCountAppendOld(init, e, k);
      }
    }
  }

  /** The main loop over the lines of the file: the table exists iff the
      first count field of every kept n-gram string is an integer, lists
      the kept n-gram strings once each in order of first occurrence, and
      counts each as its first line's count plus one per repeat. */
  lemma AggregateCounts(lines: seq<string>)
    ensures Aggregate(lines).Some? <==> FirstCountsParse(KeptEntries(lines))
    ensures Aggregate(lines).Some? ==> Summarises(Aggregate(lines).value, KeptEntries(lines))
  {
    FoldCounts(KeptEntries(lines));
  }

  /** The output text: one `ngram<TAB>count<NEWLINE>` line per key, in key
      order. */
  function Render(keys: seq<string>, counts: map<string, int>): string
    requires forall k :: k in keys ==> k in counts
  {
    if keys == [] then []
    else
      var k := keys[|keys| - 1];
      Render(keys[..|keys| - 1], counts) + RenderLine(k, counts[k])
  }

  /** The line written for key `k` with count `n`. */
  function RenderLine(k: string, n: int): string {
    k + "\t" + IntToString(n) + "\n"
  }

  /** The rendered text has one line break per key when no key holds a
      line break: each key is written as exactly one line. */
  lemma {:induction false} RenderLineCount(keys: seq<string>, counts: map<string, int>)
    requires forall k :: k in keys ==> k in counts
    requires forall k :: k in keys ==> '\n' !in k
    ensures Count(Render(keys, counts), '\n') == |keys|
  {
    if keys != [] {
      var init := keys[..|keys| - 1];
      var k := keys[|keys| - 1];
      var n := IntToString(counts[k]);
      RenderLineCount(init, counts);
      CountConcat(Render(init, counts), RenderLine(k, counts[k]), '\n');
      CountConcat(k, "\t", '\n');
      CountConcat(k + "\t", n, '\n');
      CountConcat(k + "\t" + n, "\n", '\n');
      CountAbsent(k, '\n');
      CountAbsent(n, '\n');
    }
  }

  lemma {:induction false} PresentFrom(ks: seq<Option<Entry>>, e: Entry)
    requires e in Present(ks)
    ensures Some(e) in ks
  {
    if ks != [] {
      var init := ks[..|ks| - 1];
      if e !in Present(init) {
        assert e == ks[|ks| - 1].value;
      } else {
        PresentFrom(init, e);
        assert Some(e) in init;
      }
    }
  }

  lemma {:induction false} FirstOccurrencesFrom(es: seq<Entry>, k: string)
    requires k in FirstOccurrences(es)
    ensures exists e :: e in es && e.ngrams == k
  {
    var init := es[..|es| - 1];
    if k in FirstOccurrences(init) {
      FirstOccurrencesFrom(init, k);
      var e :| e in init && e.ngrams == k;
      assert e in es;
    } else {
      assert es[|es| - 1] in es;
    }
  }

  /** A stored n-gram string holds neither a tab nor a line break. */
  lemma KeptNoBreaks(line: string)
    requires Kept(line).Some?
    ensures '\t' !in Kept(line).value.ngrams && '\n' !in Kept(line).value.ngrams
  {
    var fields := Split(Strip(line), '\t');
    KeptLine(line, fields);
    CleanNgramsNoBreaks(fields[0]);
    var g := CleanNgrams(fields[0]);
    assert Kept(line).value.ngrams == g;
    assert IsSpace('\t') && IsSpace('\n');
  }

  /** Every key of the table comes from a kept line. */
  lemma KeyFromLine(lines: seq<string>, k: string)
    requires Aggregate(lines).Some? && k in Aggregate(lines).value.keys
    ensures exists i :: 0 <= i < |lines| && Kept(lines[i]).Some? && Kept(lines[i]).value.ngrams == k
  {
    var ks := KeptPerLine(lines);
    AggregateCounts(lines);
    FirstOccurrencesFrom(Present(ks), k);
    var e :| e in Present(ks) && e.ngrams == k;
    PresentFrom(ks, e);
    var i :| 0 <= i < |ks| && ks[i] == Some(e);
    assert Kept(lines[i]) == ks[i];
  }

  /** No key of the table holds a tab or a line break, so the written file
      has exactly one line per stored n-gram string. */
  lemma OneLinePerKey(lines: seq<string>)
    requires Aggregate(lines).Some?
    ensures var t := Aggregate(lines).value;
      && (forall k :: k in t.keys ==> '\t' !in k && '\n' !in k)
      && Count(Render(t.keys, t.counts), '\n') == |t.keys|
  {
    var t := Aggregate(lines).value;
    forall k | k in t.keys
      ensures '\t' !in k && '\n' !in k
    {
      KeyFromLine(lines, k);
      var i :| 0 <= i < |lines| && Kept(lines[i]).Some? && Kept(lines[i]).value.ngrams == k;
      KeptNoBreaks(lines[i]);
    }
    RenderLineCount(t.keys, t.counts);
  }

  /** Once a count field raises, so does the whole run. */
  lemma {:induction false} FoldFailureStays(es: seq<Entry>, n: nat)
    requires n <= |es| && FoldEntries(es[..n]) == None
    ensures FoldEntries(es) == None
    decreases |es| - n
  {
    if n < |es| {
      assert es[..n + 1][..n] == es[..n];
      FoldFailureStays(es, n + 1);
    } else {
      assert es[..n] == es;
    }
  }

  lemma {:induction false} PresentPrefix(ks: seq<Option<Entry>>, n: nat)
    requires n <= |ks|
    ensures |Present(ks[..n])| <= |Present(ks)|
    ensures Present(ks[..n]) == Present(ks)[..|Present(ks[..n])|]
    decreases |ks| - n
  {
    if n < |ks| {
      assert ks[..n + 1][..n] == ks[..n];
      PresentPrefix(ks, n + 1);
    } else {
      assert ks[..n] == ks;
    }
  }

  /** What the main loop derives from one line is `Kept`. */
  lemma KeptLine(line: string, fields: seq<string>)
    requires fields == Split(Strip(line), '\t')
    ensures |fields| != 2 ==> Kept(line) == None
    ensures |fields| == 2 ==>
      Kept(line) == if |CleanNgrams(fields[0])| > 3 then Some(Entry(CleanNgrams(fields[0]), ParseInt(fields[1]))) else None
  {
  }

  /** The table after one line's entry, if it has one. */
  function StoreEntry(t: Table, kept: Option<Entry>): (r: Option<Table>)
    requires ValidTable(t)
    ensures r.Some? ==> ValidTable(r.value)
  {
    match kept
    case None => Some(t)
    case Some(e) => AddEntry(t, e)
  }

  lemma FoldStep(es: seq<Entry>, kept: Option<Entry>, t: Table)
    requires FoldEntries(es) == Some(t)
    ensures FoldEntries(es + (if kept.Some? then [kept.value] else [])) == StoreEntry(t, kept)
  {
    if kept.Some? {
      assert (es + [kept.value])[..|es|] == es;
    } else {
      assert es + [] == es;
    }
  }

  /** Storing one cleaned n-gram string: a new key is inserted with its
      line's count, which `int` must read; a present key gains 1. */
  method StoreNgrams(t: Table, ngrams: string, count: string) returns (r: Option<Table>)
    requires ValidTable(t)
    ensures r == AddEntry(t, Entry(ngrams, ParseInt(count)))
  {
    if ngrams !in t.counts {
      var n := ParseInt(count);
      if n.None? {
        return None;
      }
      r := Some(Table(t.keys + [ngrams], t.counts[ngrams := n.value]));
    } else {
      r := Some(Table(t.keys, t.counts[ngrams := t.counts[ngrams] + 1]));
    }
  }

  /** The body of the main loop for one line: strip, split on tabs, clean
      the n-grams, and store or update the entry of a kept line. */
  method StoreLine(t: Table, line: string) returns (r: Option<Table>)
    requires ValidTable(t)
    ensures r == StoreEntry(t, Kept(line))
  {
    var fields := Split(Strip(line), '\t');
    KeptLine(line, fields);
    r := Some(t);
    if |fields| == 2 {
      var ngrams := CleanLineNgrams(fields[0]);
      if |ngrams| > 3 {
        r := StoreNgrams(t, ngrams, fields[1]);
      }
    }
  }

  lemma RenderSnoc(keys: seq<string>, counts: map<string, int>, j: nat)
    requires j < |keys| && forall k :: k in keys ==> k in counts
    ensures Render(keys[..j + 1], counts) == Render(keys[..j], counts) + RenderLine(keys[j], counts[keys[j]])
  {
    assert keys[..j + 1][..j] == keys[..j];
  }

  /** The writing loop: one `ngram<TAB>count<NEWLINE>` line per key, in
      insertion order. */
  method WriteTable(t: Table) returns (text: string)
    requires forall k :: k in t.keys ==> k in t.counts
    ensures text == Render(t.keys, t.counts)
  {
    text := [];
    var j := 0;
    while j < |t.keys|
      invariant 0 <= j <= |t.keys|
      invariant text == Render(t.keys[..j], t.counts)
    {
      RenderSnoc(t.keys, t.counts, j);
      var k := t.keys[j];
      text := text + RenderLine(k, t.counts[k]);
      j := j + 1;
    }
    assert t.keys[..j] == t.keys;
  }

  /** One more line adds its kept entry, if any, to the present entries. */
  lemma PresentSnoc(ks: seq<Option<Entry>>, i: nat)
    requires i < |ks|
    ensures Present(ks[..i + 1]) == Present(ks[..i]) + (if ks[i].Some? then [ks[i].value] else [])
  {
    assert ks[..i + 1][..i] == ks[..i];
  }

  /** A failure on a prefix of the lines is a failure of the whole file. */
  lemma FoldFailsAt(ks: seq<Option<Entry>>, i: nat)
    requires i < |ks| && FoldEntries(Present(ks[..i + 1])) == None
    ensures FoldEntries(Present(ks)) == None
  {
    PresentPrefix(ks, i + 1);
    FoldFailureStays(Present(ks), |Present(ks[..i + 1])|);
  }

  /** The reading loop of the main block: the table of the lines, or
      `None` as soon as one `int(count)` raises. */
  method AggregateLines(lines: seq<string>) returns (r: Option<Table>)
    ensures r == Aggregate(lines)
  {
    ghost var ks := KeptPerLine(lines);
    var table := EmptyTable;
    var i := 0;
    while i < |lines|
      invariant 0 <= i <= |lines|
      invariant FoldEntries(Present(ks[..i])) == Some(table)
    {
      PresentSnoc(ks, i);
      FoldStep(Present(ks[..i]), ks[i], table);
      var next := StoreLine(table, lines[i]);
      if next.None? {
        FoldFailsAt(ks, i);
        return None;
      }
      table := next.value;
      i := i + 1;
    }
    assert ks[..i] == ks;
    r := Some(table);
  }

  /** The main block: the file's lines in, the cleaned file's text out,
      `None` where `int(count)` raises before anything is written. */
  method CleanTopicFile(lines: seq<string>) returns (output: Option<string>)
    ensures output == match Aggregate(lines)
                      case None => None
                      case Some(t) => Some(Render(t.keys, t.counts))
  {
    var table := AggregateLines(lines);
    if table.None? {
      return None;
    }
    var text := WriteTable(table.value);
    output := Some(text);
  }
}
