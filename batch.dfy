/**
 * Batch processing (`batchProcess` of the advanced window): every directory entry whose name
 * ends in `.html`, in listing order, is read, converted by `processHTML` and written next to it
 * under the name `splitext(name)[0] + ".md"`. There is no per-file error handling: the first
 * read or write that raises ends the whole run.
 */
module Batch {

  import opened Wrappers
  import opened Paths

  const HtmlSuffix: string := ".html"
  const MarkdownSuffix: string := ".md"

  /** What `processHTML` returns for every input. */
  const Placeholder: string := "Placeholder Markdown content"

  predicate EndsWith(s: string, suffix: string) {
    |suffix| <= |s| && s[|s| - |suffix|..] == suffix
  }

  /** `filename.endswith(".html")`: case-sensitive. */
  predicate IsHtml(name: string) {
    EndsWith(name, HtmlSuffix)
  }

  /** `processHTML`: a placeholder that ignores the HTML it is given. */
  function ProcessHtml(html: string): (r: string)
    ensures r == Placeholder
  {
    Placeholder
  }

  /** The output name for an entry: its `splitext` root with `.md` appended. */
  function OutputName(name: string): (r: string)
    ensures EndsWith(r, MarkdownSuffix)
  {
    SplitExt(name).0 + MarkdownSuffix
  }

  /** One file write: the path opened for writing and the text written. */
  datatype Write = Write(path: string, content: string)

  /**
   * How a run ends: the dialog was cancelled; every entry was handled; or the entry
   * `failedOn` raised, after the writes listed.
   */
  datatype BatchOutcome =
    | Cancelled
    | Completed(writes: seq<Write>)
    | Aborted(writes: seq<Write>, failedOn: string)

  /**
   * The file system, as far as the run sees it: `read(path)` is the file's text or `None` when
   * opening or decoding it raises; `writable(path)` says whether opening it for writing succeeds.
   */
  type Reader = string -> Option<string>
  type WriteCheck = string -> bool

  /** The entries that are processed, in listing order. */
  function HtmlNames(names: seq<string>): (r: seq<string>)
    ensures |r| <= |names|
    ensures forall n :: n in r ==> IsHtml(n) && n in names
  {
    if names == [] then []
    else if IsHtml(names[0]) then [names[0]] + HtmlNames(names[1..])
    else HtmlNames(names[1..])
  }

  /** The writes for a list of processed entries when nothing fails. */
  function PlannedWrites(directory: string, htmlNames: seq<string>): (r: seq<Write>)
    ensures |r| == |htmlNames|
    ensures forall k :: 0 <= k < |r| ==> r[k] == Write(Join(directory, OutputName(htmlNames[k])), Placeholder)
  {
    if htmlNames == [] then []
    else [Write(Join(directory, OutputName(htmlNames[0])), Placeholder)] + PlannedWrites(directory, htmlNames[1..])
  }

  /** The entry `name` cannot be processed: its read or its output's opening raises. */
  predicate Fails(directory: string, name: string, read: Reader, writable: WriteCheck) {
    read(Join(directory, name)).None? || !writable(Join(directory, OutputName(name)))
  }

  /** Put writes that happened earlier in front of the rest of a run. */
  function PrependAll(done: seq<Write>, rest: BatchOutcome): BatchOutcome {
    match rest
    case Cancelled => Cancelled
    case Completed(ws) => Completed(done + ws)
    case Aborted(ws, name) => Aborted(done + ws, name)
  }

  /** The loop over the listing, entry by entry: the reference the method is proved against. */
  function Steps(directory: string, names: seq<string>, read: Reader, writable: WriteCheck): (o: BatchOutcome)
    ensures !o.Cancelled?
  {
    if names == [] then Completed([])
    else
      var name := names[0];
      var rest := Steps(directory, names[1..], read, writable);
      if !IsHtml(name) then rest
      else if Fails(directory, name, read, writable) then Aborted([], name)
      else
        var content := ProcessHtml(read(Join(directory, name)).value);
        PrependAll([Write(Join(directory, OutputName(name)), content)], rest)
  }

  /** A whole run: nothing happens when the directory dialog is cancelled. */
  function Run(directory: string, names: seq<string>, read: Reader, writable: WriteCheck): (o: BatchOutcome)
    ensures o.Cancelled? <==> directory == ""
  {
    if directory == "" then Cancelled else Steps(directory, names, read, writable)
  }

  /** `batchProcess`, given the chosen directory (empty when cancelled) and its listing. */
  method BatchProcess(directory: string, listing: seq<string>, read: Reader, writable: WriteCheck)
    returns (outcome: BatchOutcome)
    ensures outcome == Run(directory, listing, read, writable)
  {
    if directory == "" {
      return Cancelled;
    }
    var writes: seq<Write> := [];
    var i := 0;
    while i < |listing|
      invariant 0 <= i <= |listing|
      invariant Steps(directory, listing, read, writable) == PrependAll(writes, Steps(directory, listing[i..], read, writable))
    {
      var name := listing[i];
      assert listing[i..][0] == name && listing[i..][1..] == listing[i + 1..];
      if IsHtml(name) {
        var html := read(Join(directory, name));
        if html.None? {
          return Aborted(writes, name);
        }
        var markdown := ProcessHtml(html.value);
        var outputPath := Join(directory, OutputName(name));
        if !writable(outputPath) {
          return Aborted(writes, name);
        }
        PrependAllTwice(writes, [Write(outputPath, markdown)], Steps(directory, listing[i + 1..], read, writable));
        writes := writes + [Write(outputPath, markdown)];
      }
      i := i + 1;
    }
    assert listing[i..] == [];
    assert writes + [] == writes;
    return Completed(writes);
  }

  lemma PrependAllTwice(a: seq<Write>, b: seq<Write>, rest: BatchOutcome)
    ensures PrependAll(a, PrependAll(b, rest)) == PrependAll(a + b, rest)
  {
    match rest
    case Cancelled =>
    case Completed(ws) => assert a + (b + ws) == (a + b) + ws;
    case Aborted(ws, name) => assert a + (b + ws) == (a + b) + ws;
  }

  /** Exactly the `.html` entries are processed. */
  lemma {:induction false} HtmlNamesExact(names: seq<string>, n: string)
    ensures n in HtmlNames(names) <==> n in names && IsHtml(n)
  {
    if names != [] {
      HtmlNamesExact(names[1..], n);
      assert n in names <==> n == names[0] || n in names[1..];
    }
  }

  /** Filtering keeps listing order: it distributes over concatenation. */
  lemma {:induction false} HtmlNamesAppend(a: seq<string>, b: seq<string>)
    ensures HtmlNames(a + b) == HtmlNames(a) + HtmlNames(b)
  {
    if a == [] {
      assert a + b == b;
    } else {
      assert (a + b)[0] == a[0] && (a + b)[1..] == a[1..] + b;
      HtmlNamesAppend(a[1..], b);
    }
  }

  /**
   * When no read or write raises, the run writes one file per `.html` entry, in listing order,
   * to its `.md` name and with the placeholder text.
   */
  lemma {:induction false} StepsAllSucceed(directory: string, names: seq<string>, read: Reader, writable: WriteCheck)
    requires forall n :: n in names && IsHtml(n) ==> !Fails(directory, n, read, writable)
    ensures Steps(directory, names, read, writable) == Completed(PlannedWrites(directory, HtmlNames(names)))
  {
    if names != [] {
      assert forall n :: n in names[1..] ==> n in names;
      StepsAllSucceed(directory, names[1..], read, writable);
      if IsHtml(names[0]) {
        PlannedWritesCons(directory, names[0], HtmlNames(names[1..]));
      }
    }
  }

  lemma PlannedWritesCons(directory: string, name: string, rest: seq<string>)
    ensures PlannedWrites(directory, [name] + rest)
         == [Write(Join(directory, OutputName(name)), Placeholder)] + PlannedWrites(directory, rest)
  {
    var lhs := PlannedWrites(directory, [name] + rest);
    var rhs := [Write(Join(directory, OutputName(name)), Placeholder)] + PlannedWrites(directory, rest);
    forall k | 0 <= k < |lhs|
      ensures lhs[k] == rhs[k]
    {
      if k > 0 { assert ([name] + rest)[k] == rest[k - 1]; }
    }
  }

  /**
   * Any `.html` entry whose read or write raises ends the batch: a run over it never completes,
   * whatever comes before or after it.
   */
  lemma {:induction false} StepsFailureAborts(directory: string, names: seq<string>, read: Reader, writable: WriteCheck, n: string)
    requires n in names && IsHtml(n) && Fails(directory, n, read, writable)
    ensures Steps(directory, names, read, writable).Aborted?
  {
    if names[0] != n {
      assert n in names[1..];
      StepsFailureAborts(directory, names[1..], read, writable, n);
    }
  }

  lemma RunFailureAborts(directory: string, listing: seq<string>, read: Reader, writable: WriteCheck, n: string)
    requires directory != ""
    requires n in listing && IsHtml(n) && Fails(directory, n, read, writable)
    ensures Run(directory, listing, read, writable).Aborted?
  {
    StepsFailureAborts(directory, listing, read, writable, n);
  }

  lemma RunAllSucceed(directory: string, listing: seq<string>, read: Reader, writable: WriteCheck)
    requires directory != ""
    requires forall n :: n in listing && IsHtml(n) ==> !Fails(directory, n, read, writable)
    ensures Run(directory, listing, read, writable) == Completed(PlannedWrites(directory, HtmlNames(listing)))
  {
    StepsAllSucceed(directory, listing, read, writable);
  }

  /**
   * A run that stops stops at the first `.html` entry that fails, the `k`-th one processed;
   * exactly the writes of the entries before it have happened, and none after it.
   */
  lemma {:induction false} StepsAborted(directory: string, names: seq<string>, read: Reader, writable: WriteCheck)
    returns (k: nat)
    requires Steps(directory, names, read, writable).Aborted?
    ensures k < |HtmlNames(names)|
    ensures HtmlNames(names)[k] == Steps(directory, names, read, writable).failedOn
    ensures Fails(directory, HtmlNames(names)[k], read, writable)
    ensures forall j :: 0 <= j < k ==> !Fails(directory, HtmlNames(names)[j], read, writable)
    ensures Steps(directory, names, read, writable).writes == PlannedWrites(directory, HtmlNames(names)[..k])
  {
    var name := names[0];
    if !IsHtml(name) {
      k := StepsAborted(directory, names[1..], read, writable);
    } else if Fails(directory, name, read, writable) {
      k := 0;
    } else {
      var k' := StepsAborted(directory, names[1..], read, writable);
      k := k' + 1;
      var rest := Steps(directory, names[1..], read, writable);
      var w := Write(Join(directory, OutputName(name)), Placeholder);
      assert Steps(directory, names, read, writable) == Aborted([w] + rest.writes, rest.failedOn);
      var h, h' := HtmlNames(names), HtmlNames(names[1..]);
      assert h == [name] + h';
      assert forall j :: 0 < j < |h| ==> h[j] == h'[j - 1];
      assert h[..k] == [name] + h'[..k'];
      PlannedWritesCons(directory, name, h'[..k']);
    }
  }

  lemma RunAborted(directory: string, listing: seq<string>, read: Reader, writable: WriteCheck)
    returns (k: nat)
    requires Run(directory, listing, read, writable).Aborted?
    ensures k < |HtmlNames(listing)| && HtmlNames(listing)[k] == Run(directory, listing, read, writable).failedOn
    ensures Fails(directory, HtmlNames(listing)[k], read, writable)
    ensures forall j :: 0 <= j < k ==> !Fails(directory, HtmlNames(listing)[j], read, writable)
    ensures Run(directory, listing, read, writable).writes == PlannedWrites(directory, HtmlNames(listing)[..k])
  {
    k := StepsAborted(directory, listing, read, writable);
  }

  /**
   * Three `.html` files of which the second cannot be read: only the first is written and the
   * third is never reached.
   */
  lemma SecondOfThreeFails(directory: string, a: string, b: string, c: string, read: Reader, writable: WriteCheck)
    requires directory != "" && IsHtml(a) && IsHtml(b) && IsHtml(c)
    requires !Fails(directory, a, read, writable) && read(Join(directory, b)).None?
    ensures Run(directory, [a, b, c], read, writable) == Aborted([Write(Join(directory, OutputName(a)), Placeholder)], b)
  {
    assert [a, b, c][0] == a && [a, b, c][1..] == [b, c];
    assert [b, c][0] == b;
    assert Steps(directory, [b, c], read, writable) == Aborted([], b);
    assert ProcessHtml(read(Join(directory, a)).value) == Placeholder;
  }

  /**
   * For an `.html` entry (which has no `/`), the output name drops `.html` and adds `.md`, unless
   * only dots precede `.html`, in which case `.md` is appended to the whole name.
   */
  lemma OutputNameOfHtml(name: string)
    requires IsHtml(name)
    requires forall i :: 0 <= i < |name| ==> name[i] != '/'
    ensures OutputName(name) == (if AllDots(name, 0, |name| - 5) then name else name[..|name| - 5]) + MarkdownSuffix
  {
    var dot := |name| - 5;
    assert name[dot..] == HtmlSuffix;
    assert name[dot] == '.' && forall i :: dot < i < |name| ==> name[i] != '.';
    assert RFindChar(name, '.') == dot;
    assert RFindChar(name, '/') == -1;
  }

  lemma OutputNameExamples()
    ensures OutputName("a.html") == "a.md"
    ensures OutputName(".html") == ".html.md"
  {
    OutputNameOfHtml("a.html");
    assert !AllDots("a.html", 0, 1) by { assert "a.html"[0] == 'a'; }
    assert "a.html"[..1] == "a";
    OutputNameOfHtml(".html");
    assert AllDots(".html", 0, 0);
  }

  /**
   * Two `.html` entries can share an output name, so the second write replaces the first:
   * `..html` keeps its whole name (only dots precede `.html`) while `..html.html` loses `.html`.
   */
  lemma OutputNamesCanCollide()
    ensures OutputName("..html") == OutputName("..html.html") == "..html.md"
  {
    OutputNameOfHtml("..html");
    assert AllDots("..html", 0, 1);
    OutputNameOfHtml("..html.html");
    assert !AllDots("..html.html", 0, 6) by { assert "..html.html"[2] == 'h'; }
    assert "..html.html"[..6] == "..html";
  }
}
