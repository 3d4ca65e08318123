/**
 * The run (`w:r`) as the hyperlink and package code sees it. The crate's own run type is not part of this
 * model: a run is taken to be an ordered sequence of content items, whose text leaves make up the run's text
 * and whose drawings are the pictures the package sanitizer visits.
 */
module Runs {
  import Seqs
  import Strings
  import Drawing

  datatype RunContent =
    | Text(text: string)
    | DrawingItem(drawing: Drawing.Drawing)
    | OtherItem(tag: string)

  datatype Run = Run(content: seq<RunContent>)

  /** `Run::default()`. */
  const EmptyRun := Run([])

  /** The text leaves of a sequence of run items, in order. */
  function ItemTexts(items: seq<RunContent>): seq<string>
  {
    if items == [] then []
    else (if items[0].Text? then [items[0].text] else []) + ItemTexts(items[1..])
  }

  lemma {:induction false} ItemTextsAppend(a: seq<RunContent>, b: seq<RunContent>)
    ensures ItemTexts(a + b) == ItemTexts(a) + ItemTexts(b)
    decreases |a|
  {
    if a == [] {
      assert a + b == b;
    } else {
      assert (a + b)[1..] == a[1..] + b;
      ItemTextsAppend(a[1..], b);
    }
  }

  /** `Run::iter_text`. */
  function IterText(r: Run): seq<string>
  {
    ItemTexts(r.content)
  }

  /** `Run::text`: the text leaves joined. */
  function RunText(r: Run): string
  {
    Seqs.Concat(IterText(r))
  }

  /** `Run::push_text`: appends one text leaf. */
  function PushText(r: Run, t: string): Run
  {
    Run(r.content + [Text(t)])
  }

  /** Pushing a text leaf adds exactly that leaf to the run's text, at the end. */
  lemma PushTextAppends(r: Run, t: string)
    ensures IterText(PushText(r, t)) == IterText(r) + [t]
    ensures RunText(PushText(r, t)) == RunText(r) + t
  {
    ItemTextsAppend(r.content, [Text(t)]);
    assert ItemTexts([Text(t)]) == [t];
    Seqs.ConcatAppend(IterText(r), [t]);
    assert Seqs.Concat([t]) == t by {
      assert [t][..0] == [];
    }
  }

  /** `str::replace` applied, one pair after the other, to a text leaf. */
  function ReplacePairs(t: string, dic: seq<(string, string)>): string
    decreases |dic|
  {
    if dic == [] then t else ReplacePairs(Strings.ReplaceAll(t, dic[0].0, dic[0].1), dic[1..])
  }

  /** A one-pair dictionary is a single `str::replace`. */
  lemma ReplaceOnePair(t: string, pat: string, rep: string)
    ensures ReplacePairs(t, [(pat, rep)]) == Strings.ReplaceAll(t, pat, rep)
  {
    assert [(pat, rep)][1..] == [];
  }

  /** Replaces inside every text leaf of a run item sequence; other items are kept. */
  function ReplaceItems(items: seq<RunContent>, dic: seq<(string, string)>): (r: seq<RunContent>)
    ensures |r| == |items|
  {
    if items == [] then []
    else
      (if items[0].Text? then [Text(ReplacePairs(items[0].text, dic))] else [items[0]])
      + ReplaceItems(items[1..], dic)
  }

  /** `Run::replace_text` with a dictionary, and `Run::replace_text_simple` as the one-pair dictionary. */
  function ReplaceText(r: Run, dic: seq<(string, string)>): Run
  {
    Run(ReplaceItems(r.content, dic))
  }

  /** Replacement works leaf by leaf: the leaves keep their number and each is replaced on its own. */
  lemma {:induction false} ReplaceItemsTexts(items: seq<RunContent>, dic: seq<(string, string)>)
    ensures |ItemTexts(ReplaceItems(items, dic))| == |ItemTexts(items)|
    ensures forall i :: 0 <= i < |ItemTexts(items)| ==>
      ItemTexts(ReplaceItems(items, dic))[i] == ReplacePairs(ItemTexts(items)[i], dic)
    decreases |items|
  {
    if items != [] {
      ReplaceItemsTexts(items[1..], dic);
      var head := if items[0].Text? then [Text(ReplacePairs(items[0].text, dic))] else [items[0]];
      assert ReplaceItems(items, dic) == head + ReplaceItems(items[1..], dic);
      assert ReplaceItems(items, dic)[1..] == ReplaceItems(items[1..], dic);
    }
  }

  /** The text leaves of the replaced run are the run's leaves, each replaced independently. */
  lemma ReplaceTextLeaves(r: Run, dic: seq<(string, string)>)
    ensures |IterText(ReplaceText(r, dic))| == |IterText(r)|
    ensures forall i :: 0 <= i < |IterText(r)| ==> IterText(ReplaceText(r, dic))[i] == ReplacePairs(IterText(r)[i], dic)
  {
    ReplaceItemsTexts(r.content, dic);
  }

  /** A run whose every leaf is free of a non-empty pattern is unchanged by replacing it. */
  lemma {:induction false} ReplaceItemsAbsent(items: seq<RunContent>, pat: string, rep: string)
    requires pat != []
    requires forall t :: t in ItemTexts(items) ==> !Strings.Contains(t, pat)
    ensures ReplaceItems(items, [(pat, rep)]) == items
    decreases |items|
  {
    if items != [] {
      if items[0].Text? {
        assert items[0].text in ItemTexts(items);
        Strings.ReplaceAbsent(items[0].text, pat, rep);
        assert [(pat, rep)][1..] == [];
        assert ReplacePairs(items[0].text, [(pat, rep)]) == items[0].text;
      }
      assert forall t :: t in ItemTexts(items[1..]) ==> t in ItemTexts(items);
      ReplaceItemsAbsent(items[1..], pat, rep);
      assert items == [items[0]] + items[1..];
    }
  }
}
