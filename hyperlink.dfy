/**
 * `w:hyperlink` (src/document/hyperlink.rs): a link target (relationship id or bookmark), an ordered sequence
 * of runs, and an optional bidirectional embedding. Builders take the hyperlink by value and return it, so
 * they are functions; the two replacement operations loop over the runs and update each one in place, so
 * they are methods taking the old hyperlink and returning the new one.
 */
module Hyperlink {
  import opened Wrappers
  import opened Errors
  import Seqs
  import Strings
  import Runs

  /** `BidirectionalEmbedding` (`w:dir`): only its text leaves are modelled. */
  datatype Bidi = Bidi(texts: seq<string>)

  datatype Hyperlink = Hyperlink(
    id: Option<string>, anchor: Option<string>, content: seq<Runs.Run>, bidi: Option<Bidi>)

  /** `Hyperlink::default()`. */
  const Default := Hyperlink(None, None, [], None)

  // ---------------------------------------------------------------- builders

  /** The `id` setter. */
  function SetId(h: Hyperlink, id: Option<string>): Hyperlink
  {
    h.(id := id)
  }

  /** The `anchor` setter. */
  function SetAnchor(h: Hyperlink, anchor: Option<string>): Hyperlink
  {
    h.(anchor := anchor)
  }

  /** `push_run`. */
  function PushRun(h: Hyperlink, r: Runs.Run): Hyperlink
  {
    h.(content := h.content + [r])
  }

  /** `add_text`: a new run holding the one text leaf `t`. */
  function AddText(h: Hyperlink, t: string): Hyperlink
  {
    PushRun(h, Runs.PushText(Runs.EmptyRun, t))
  }

  /** `from_single_run`. */
  function FromSingleRun(r: Runs.Run): Hyperlink
  {
    Default.(content := [r])
  }

  /** `first_run`: the first run, absent exactly when there are no runs. */
  function FirstRun(h: Hyperlink): (r: Option<Runs.Run>)
    ensures r.None? <==> h.content == []
    ensures r.Some? ==> r.value == h.content[0]
  {
    if h.content == [] then None else Some(h.content[0])
  }

  // ---------------------------------------------------------------- text

  /** The text leaves of a sequence of runs, run after run (`flat_map(|run| run.iter_text())`). */
  function RunsTexts(runs: seq<Runs.Run>): seq<string>
  {
    if runs == [] then [] else RunsTexts(runs[..|runs| - 1]) + Runs.IterText(runs[|runs| - 1])
  }

  /** The text leaves of the embedding, if there is one. */
  function BidiTexts(b: Option<Bidi>): seq<string>
  {
    if b.Some? then b.value.texts else []
  }

  /** `iter_text`: the runs' leaves in order, then the embedding's. */
  function IterText(h: Hyperlink): seq<string>
  {
    RunsTexts(h.content) + BidiTexts(h.bidi)
  }

  /** `text`: the leaves joined with no separator. */
  function Text(h: Hyperlink): string
  {
    Seqs.Concat(IterText(h))
  }

  /** Each run's own text, joined in run order: the reference reading of a hyperlink's text. */
  function JoinRuns(runs: seq<Runs.Run>): string
  {
    if runs == [] then [] else JoinRuns(runs[..|runs| - 1]) + Runs.RunText(runs[|runs| - 1])
  }

  lemma {:induction false} RunsTextsJoin(runs: seq<Runs.Run>)
    ensures Seqs.Concat(RunsTexts(runs)) == JoinRuns(runs)
    decreases |runs|
  {
    if runs != [] {
      var init := runs[..|runs| - 1];
      RunsTextsJoin(init);
      Seqs.ConcatAppend(RunsTexts(init), Runs.IterText(runs[|runs| - 1]));
    }
  }

  /** `text()` is each run's text in order, followed by the embedding's text. */
  lemma TextInOrder(h: Hyperlink)
    ensures Text(h) == JoinRuns(h.content) + Seqs.Concat(BidiTexts(h.bidi))
  {
    Seqs.ConcatAppend(RunsTexts(h.content), BidiTexts(h.bidi));
    RunsTextsJoin(h.content);
  }

  /** A default hyperlink has no runs and empty text. */
  lemma DefaultIsEmpty()
    ensures Text(Default) == [] && FirstRun(Default) == None
  {
    assert IterText(Default) == [];
  }

  /** `push_run` puts the run last, keeps everything else, and adds the run's text before the embedding's. */
  lemma PushRunAppends(h: Hyperlink, r: Runs.Run)
    ensures |PushRun(h, r).content| == |h.content| + 1
    ensures PushRun(h, r).content[..|h.content|] == h.content && PushRun(h, r).content[|h.content|] == r
    ensures PushRun(h, r).id == h.id && PushRun(h, r).anchor == h.anchor && PushRun(h, r).bidi == h.bidi
    ensures Text(PushRun(h, r)) == JoinRuns(h.content) + Runs.RunText(r) + Seqs.Concat(BidiTexts(h.bidi))
    ensures FirstRun(PushRun(h, r)) == if h.content == [] then Some(r) else FirstRun(h)
  {
    var h' := PushRun(h, r);
    assert h'.content[..|h'.content| - 1] == h.content;
    TextInOrder(h');
  }

  /** `add_text(t)` appends `t` to the runs' text; without an embedding, to the whole text. */
  lemma AddTextAppends(h: Hyperlink, t: string)
    ensures |AddText(h, t).content| == |h.content| + 1
    ensures Text(AddText(h, t)) == JoinRuns(h.content) + t + Seqs.Concat(BidiTexts(h.bidi))
    ensures h.bidi.None? ==> Text(AddText(h, t)) == Text(h) + t
  {
    Runs.PushTextAppends(Runs.EmptyRun, t);
    assert Runs.RunText(Runs.EmptyRun) == [] by {
      assert Runs.IterText(Runs.EmptyRun) == [];
    }
    PushRunAppends(h, Runs.PushText(Runs.EmptyRun, t));
    TextInOrder(h);
    assert Seqs.Concat(BidiTexts(None)) == [];
  }

  /** `from_single_run(r)` holds exactly `r`, has no target, and its text is the run's. */
  lemma FromSingleRunHoldsRun(r: Runs.Run)
    ensures FromSingleRun(r).content == [r] && FirstRun(FromSingleRun(r)) == Some(r)
    ensures FromSingleRun(r).id.None? && FromSingleRun(r).anchor.None?
    ensures Text(FromSingleRun(r)) == Runs.RunText(r)
  {
    PushRunAppends(Default, r);
    assert FromSingleRun(r) == PushRun(Default, r);
    assert JoinRuns([]) == [];
  }

  // ---------------------------------------------------------------- replace_text_simple

  /** Each run replaced on its own with the same dictionary. */
  function ReplaceRuns(runs: seq<Runs.Run>, dic: seq<(string, string)>): (r: seq<Runs.Run>)
    ensures |r| == |runs|
    ensures forall i :: 0 <= i < |runs| ==> r[i] == Runs.ReplaceText(runs[i], dic)
  {
    if runs == [] then []
    else ReplaceRuns(runs[..|runs| - 1], dic) + [Runs.ReplaceText(runs[|runs| - 1], dic)]
  }

  /** The hyperlink `replace_text_simple(old, new)` leaves behind. */
  function ReplacedSimple(h: Hyperlink, pat: string, rep: string): Hyperlink
  {
    h.(content := ReplaceRuns(h.content, [(pat, rep)]))
  }

  /** `replace_text_simple`: every run is rewritten in place; the run count and the embedding are kept. */
  method ReplaceTextSimple(h: Hyperlink, pat: string, rep: string) returns (h': Hyperlink)
    ensures h' == ReplacedSimple(h, pat, rep)
  {
    h' := h;
    var i := 0;
    while i < |h'.content|
      invariant 0 <= i <= |h'.content| == |h.content|
      invariant h'.id == h.id && h'.anchor == h.anchor && h'.bidi == h.bidi
      invariant forall j :: 0 <= j < i ==> h'.content[j] == Runs.ReplaceText(h.content[j], [(pat, rep)])
      invariant forall j :: i <= j < |h.content| ==> h'.content[j] == h.content[j]
    {
      h' := h'.(content := h'.content[i := Runs.ReplaceText(h'.content[i], [(pat, rep)])]);
      i := i + 1;
    }
  }

  /**
   * Replacement is leaf by leaf: the replaced hyperlink has as many text leaves, each run leaf is replaced
   * on its own, and the embedding's leaves are untouched.
   */
  lemma {:induction false} ReplaceRunsLeaves(runs: seq<Runs.Run>, dic: seq<(string, string)>)
    ensures |RunsTexts(ReplaceRuns(runs, dic))| == |RunsTexts(runs)|
    ensures forall i :: 0 <= i < |RunsTexts(runs)| ==>
      RunsTexts(ReplaceRuns(runs, dic))[i] == Runs.ReplacePairs(RunsTexts(runs)[i], dic)
    decreases |runs|
  {
    if runs != [] {
      var init := runs[..|runs| - 1];
      var last := runs[|runs| - 1];
      var rr := ReplaceRuns(runs, dic);
      ReplaceRunsLeaves(init, dic);
      Runs.ReplaceTextLeaves(last, dic);
      assert rr[..|rr| - 1] == ReplaceRuns(init, dic);
      assert RunsTexts(rr) == RunsTexts(ReplaceRuns(init, dic)) + Runs.IterText(Runs.ReplaceText(last, dic));
    }
  }

  lemma ReplaceSimpleLeaves(h: Hyperlink, pat: string, rep: string)
    ensures |IterText(ReplacedSimple(h, pat, rep))| == |IterText(h)|
    ensures forall i :: 0 <= i < |RunsTexts(h.content)| ==>
      IterText(ReplacedSimple(h, pat, rep))[i] == Strings.ReplaceAll(IterText(h)[i], pat, rep)
    ensures forall i :: |RunsTexts(h.content)| <= i < |IterText(h)| ==>
      IterText(ReplacedSimple(h, pat, rep))[i] == IterText(h)[i]
  {
    ReplaceRunsLeaves(h.content, [(pat, rep)]);
    forall i | 0 <= i < |RunsTexts(h.content)|
      ensures Runs.ReplacePairs(RunsTexts(h.content)[i], [(pat, rep)]) == Strings.ReplaceAll(IterText(h)[i], pat, rep)
    {
      Runs.ReplaceOnePair(RunsTexts(h.content)[i], pat, rep);
    }
  }

  /** A non-empty pattern found in no single text leaf changes nothing, even if the joined text contains it. */
  lemma {:induction false} ReplaceSimpleNoLeafMatch(h: Hyperlink, pat: string, rep: string)
    requires pat != []
    requires forall r, t :: r in h.content && t in Runs.IterText(r) ==> !Strings.Contains(t, pat)
    ensures ReplacedSimple(h, pat, rep) == h
  {
    forall i | 0 <= i < |h.content|
      ensures Runs.ReplaceText(h.content[i], [(pat, rep)]) == h.content[i]
    {
      assert h.content[i] in h.content;
      Runs.ReplaceItemsAbsent(h.content[i].content, pat, rep);
    }
  }

  /**
   * A match that straddles two runs is not replaced: with runs `a` and `b`, the text contains `a + b`, yet
   * replacing `a + b` leaves the hyperlink as it was.
   */
  lemma CrossRunMatchIsMissed(a: string, b: string, rep: string)
    requires a != [] && b != []
    ensures var h := AddText(AddText(Default, a), b);
      Strings.Contains(Text(h), a + b) && ReplacedSimple(h, a + b, rep) == h
  {
    var h := AddText(AddText(Default, a), b);
    TwoLeafText(a, b);
    Strings.ContainsAtIndex(Text(h), a + b, 0);
    forall r, t | r in h.content && t in Runs.IterText(r)
      ensures !Strings.Contains(t, a + b)
    {
      Runs.PushTextAppends(Runs.EmptyRun, a);
      Runs.PushTextAppends(Runs.EmptyRun, b);
      Strings.ShorterExcludes(t, a + b);
    }
    ReplaceSimpleNoLeafMatch(h, a + b, rep);
  }

  /** Replacing inside a run built from one text leaf gives the run built from the replaced leaf. */
  lemma ReplaceSingleLeaf(t: string, dic: seq<(string, string)>)
    ensures Runs.ReplaceText(Runs.PushText(Runs.EmptyRun, t), dic) == Runs.PushText(Runs.EmptyRun, Runs.ReplacePairs(t, dic))
  {
    assert Runs.EmptyRun.content + [Runs.Text(t)] == [Runs.Text(t)];
  }

  /** Replacing in a hyperlink of two one-leaf runs gives the hyperlink of the two replaced leaves. */
  lemma ReplaceTwoLeaves(a: string, b: string, dic: seq<(string, string)>)
    ensures ReplaceRuns(AddText(AddText(Default, a), b).content, dic)
      == AddText(AddText(Default, Runs.ReplacePairs(a, dic)), Runs.ReplacePairs(b, dic)).content
  {
    ReplaceSingleLeaf(a, dic);
    ReplaceSingleLeaf(b, dic);
  }

  /** The text of a hyperlink built from two text leaves. */
  lemma TwoLeafText(a: string, b: string)
    ensures Text(AddText(AddText(Default, a), b)) == a + b
  {
    AddTextAppends(Default, a);
    AddTextAppends(AddText(Default, a), b);
    DefaultIsEmpty();
  }

  /** Two runs that each open with the pattern and hold it nowhere else get it replaced once each. */
  lemma ReplaceSimpleEachRun(pat: string, rest1: string, rest2: string, rep: string)
    requires pat != [] && !Strings.Contains(rest1, pat) && !Strings.Contains(rest2, pat)
    ensures var h := AddText(AddText(Default, pat + rest1), pat + rest2);
      Text(ReplacedSimple(h, pat, rep)) == rep + rest1 + rep + rest2
  {
    ReplaceOnePairLeading(pat, rest1, rep);
    ReplaceOnePairLeading(pat, rest2, rep);
    ReplaceTwoLeaves(pat + rest1, pat + rest2, [(pat, rep)]);
    TwoLeafText(rep + rest1, rep + rest2);
  }

  /** The instance of two runs: "Old text in first run" and "Old text in second run". */
  lemma ReplaceSimpleOldText()
    ensures var h := AddText(AddText(Default, "Old text" + " in first run"), "Old text" + " in second run");
      Text(ReplacedSimple(h, "Old text", "New text")) == "New text" + " in first run" + "New text" + " in second run"
  {
    Strings.MissingCharExcludes(" in first run", "Old text", 0);
    Strings.MissingCharExcludes(" in second run", "Old text", 0);
    ReplaceSimpleEachRun("Old text", " in first run", " in second run", "New text");
  }

  lemma ReplaceOnePairLeading(pat: string, rest: string, rep: string)
    requires pat != [] && !Strings.Contains(rest, pat)
    ensures Runs.ReplacePairs(pat + rest, [(pat, rep)]) == rep + rest
  {
    Runs.ReplaceOnePair(pat + rest, pat, rep);
    Strings.ReplaceLeading(pat, rest, rep);
  }

  // ---------------------------------------------------------------- replace_text

  /**
   * `Run::replace_text(dic)` rewrites its run in place and may fail part-way: `replaceRun` gives the run as that
   * call leaves it together with the call's result.
   */
  type RunReplacer = Runs.Run -> (Runs.Run, DocxResult<()>)

  /** Index of the first run whose replacement fails, or the number of runs when none does. */
  function FirstFailure(runs: seq<Runs.Run>, replaceRun: RunReplacer): (k: nat)
    ensures k <= |runs|
    ensures forall i :: 0 <= i < k ==> replaceRun(runs[i]).1.Ok?
    ensures k < |runs| ==> replaceRun(runs[k]).1.Err?
  {
    if runs == [] then 0
    else if replaceRun(runs[0]).1.Err? then 0
    else 1 + FirstFailure(runs[1..], replaceRun)
  }

  /** The runs with the first `k` of them rewritten by `replaceRun` and the others as they were. */
  function ReplaceRunsUpTo(runs: seq<Runs.Run>, replaceRun: RunReplacer, k: nat): (r: seq<Runs.Run>)
    requires k <= |runs|
    ensures |r| == |runs|
    ensures forall i :: 0 <= i < k ==> r[i] == replaceRun(runs[i]).0
    ensures forall i :: k <= i < |runs| ==> r[i] == runs[i]
    decreases k
  {
    if k == 0 then runs
    else [replaceRun(runs[0]).0] + ReplaceRunsUpTo(runs[1..], replaceRun, k - 1)
  }

  /**
   * `replace_text(dic)`: runs are rewritten in order by the run's own dictionary replacement; the first failure
   * is returned at once, leaving the runs before it rewritten, the failing run as its own call left it, and the
   * runs after it as they were.
   */
  method ReplaceText(h: Hyperlink, replaceRun: RunReplacer) returns (h': Hyperlink, r: DocxResult<()>)
    ensures var k := FirstFailure(h.content, replaceRun);
      h' == h.(content := ReplaceRunsUpTo(h.content, replaceRun, if k < |h.content| then k + 1 else k))
      && r == if k == |h.content| then Ok(()) else Err(replaceRun(h.content[k]).1.error)
  {
    h' := h;
    var i := 0;
    while i < |h'.content|
      invariant 0 <= i <= |h'.content| == |h.content|
      invariant h'.id == h.id && h'.anchor == h.anchor && h'.bidi == h.bidi
      invariant forall j :: 0 <= j < i ==> replaceRun(h.content[j]).1.Ok?
      invariant forall j :: 0 <= j < i ==> h'.content[j] == replaceRun(h.content[j]).0
      invariant forall j :: i <= j < |h.content| ==> h'.content[j] == h.content[j]
    {
      var res := replaceRun(h'.content[i]);
      h' := h'.(content := h'.content[i := res.0]);
      if res.1.Err? {
        FirstFailureAt(h.content, replaceRun, i);
        r := Err(res.1.error);
        return;
      }
      i := i + 1;
    }
    FirstFailureAt(h.content, replaceRun, i);
    r := Ok(());
  }

  /** The first failure is the index where a failure follows only successes. */
  lemma {:induction false} FirstFailureAt(runs: seq<Runs.Run>, replaceRun: RunReplacer, i: nat)
    requires i <= |runs| && forall j :: 0 <= j < i ==> replaceRun(runs[j]).1.Ok?
    requires i < |runs| ==> replaceRun(runs[i]).1.Err?
    ensures FirstFailure(runs, replaceRun) == i
    decreases i
  {
    if i > 0 {
      FirstFailureAt(runs[1..], replaceRun, i - 1);
    }
  }

  /**
   * With the run replacement that never fails, `replace_text` succeeds and rewrites every run, and
   * `replace_text_simple(old, new)` is `replace_text` with the one-pair dictionary.
   */
  lemma ReplaceTextInfallible(h: Hyperlink, dic: seq<(string, string)>)
    ensures var f := (run: Runs.Run) => (Runs.ReplaceText(run, dic), Result<(), DocxError>.Ok(()));
      FirstFailure(h.content, f) == |h.content| && ReplaceRunsUpTo(h.content, f, |h.content|) == ReplaceRuns(h.content, dic)
  {
    var f := (run: Runs.Run) => (Runs.ReplaceText(run, dic), Result<(), DocxError>.Ok(()));
    FirstFailureAt(h.content, f, |h.content|);
  }

  /**
   * The dictionary is applied pair by pair inside each run: a run opening with the first key gets it replaced,
   * and a run opening with the second key gets that one replaced, when nothing else matches.
   */
  lemma ReplaceDictionaryEachRun(k1: string, v1: string, rest1: string, k2: string, v2: string, rest2: string)
    requires k1 != [] && k2 != []
    requires !Strings.Contains(rest1, k1) && !Strings.Contains(v1 + rest1, k2)
    requires !Strings.Contains(k2 + rest2, k1) && !Strings.Contains(rest2, k2)
    ensures var h := AddText(AddText(Default, k1 + rest1), k2 + rest2);
      Text(h.(content := ReplaceRuns(h.content, [(k1, v1), (k2, v2)]))) == v1 + rest1 + v2 + rest2
  {
    var dic := [(k1, v1), (k2, v2)];
    assert dic[1..] == [(k2, v2)];
    assert Runs.ReplacePairs(k1 + rest1, dic) == v1 + rest1 by {
      Strings.ReplaceLeading(k1, rest1, v1);
      ReplaceOnePairAbsent(v1 + rest1, k2, v2);
    }
    assert Runs.ReplacePairs(k2 + rest2, dic) == v2 + rest2 by {
      Strings.ReplaceAbsent(k2 + rest2, k1, v1);
      ReplaceOnePairLeading(k2, rest2, v2);
    }
    ReplaceTwoLeaves(k1 + rest1, k2 + rest2, dic);
    TwoLeafText(v1 + rest1, v2 + rest2);
  }

  /** The instance "Hello World" and "Goodbye Moon" with "Hello" to "Hi" and "Goodbye" to "Bye". */
  lemma ReplaceDictionaryHelloGoodbye()
    ensures var h := AddText(AddText(Default, "Hello" + " World"), "Goodbye" + " Moon");
      Text(h.(content := ReplaceRuns(h.content, [("Hello", "Hi"), ("Goodbye", "Bye")])))
        == "Hi" + " World" + "Bye" + " Moon"
  {
    Strings.MissingCharExcludes(" World", "Hello", 0);
    Strings.MissingCharExcludes("Hi" + " World", "Goodbye", 0);
    Strings.MissingCharExcludes("Goodbye" + " Moon", "Hello", 0);
    Strings.MissingCharExcludes(" Moon", "Goodbye", 0);
    ReplaceDictionaryEachRun("Hello", "Hi", " World", "Goodbye", "Bye", " Moon");
  }

  lemma ReplaceOnePairAbsent(t: string, pat: string, rep: string)
    requires pat != [] && !Strings.Contains(t, pat)
    ensures Runs.ReplacePairs(t, [(pat, rep)]) == t
  {
    Runs.ReplaceOnePair(t, pat, rep);
    Strings.ReplaceAbsent(t, pat, rep);
  }
}
