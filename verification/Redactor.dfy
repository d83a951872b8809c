/**
 The redactor of one run, as ai/redaction.py keeps it: the table of placeholders, and one pass over
 a text. A pattern is any finder of stretches; what the real patterns recognise is not modelled.
 */
module Redactor {
  import opened Wrappers
  import opened Redaction

  type Finder = seq<Piece> -> seq<Span>

  datatype Stage = Stage(kind: Kind, find: Finder)

  /** What one stage found in the text as it was then. */
  datatype Found = Found(kind: Kind, ps: seq<Piece>, spans: seq<Span>)

  // ── The lists of values ───────────────────────────────────────────────

  function AddValue(list: seq<string>, value: string): seq<string> {
    if value in list then list else list + [value]
  }

  /** The list after the text of each stretch got its number, left to right. */
  function AddSpans(list: seq<string>, ps: seq<Piece>, spans: seq<Span>): seq<string>
    requires forall s | s in spans :: s.lo <= s.hi <= |ps|
    decreases |spans|
  {
    if spans == [] then list
    else AddSpans(AddValue(list, Render(ps[spans[0].lo..spans[0].hi])), ps, spans[1..])
  }

  predicate NoRepeats(list: seq<string>) {
    forall i, j | 0 <= i < j < |list| :: list[i] != list[j]
  }

  lemma {:induction false} AddSpansGrows(list: seq<string>, ps: seq<Piece>, spans: seq<Span>)
    requires forall s | s in spans :: s.lo <= s.hi <= |ps|
    ensures list <= AddSpans(list, ps, spans)
    ensures forall s | s in spans :: Render(ps[s.lo..s.hi]) in AddSpans(list, ps, spans)
    decreases |spans|
  {
    if spans != [] {
      var s := spans[0];
      var next := AddValue(list, Render(ps[s.lo..s.hi]));
      AddSpansGrows(next, ps, spans[1..]);
      assert Render(ps[s.lo..s.hi]) in next;
      assert forall v | v in next :: v in AddSpans(list, ps, spans);
      forall t | t in spans
        ensures Render(ps[t.lo..t.hi]) in AddSpans(list, ps, spans)
      {
        assert t == s || t in spans[1..];
      }
    }
  }

  /** Numbers do not change as a list grows. */
  lemma {:induction false} NumbersStay(list: seq<string>, grown: seq<string>, value: string)
    requires list <= grown && value in list
    ensures value in grown && NumberOf(grown, value) == NumberOf(list, value)
  {
    assert grown[0] == list[0];
    if list[0] != value {
      assert list[1..] <= grown[1..];
      NumbersStay(list[1..], grown[1..], value);
    }
  }

  lemma {:induction false} NumberIsPlace(list: seq<string>, n: nat)
    requires NoRepeats(list) && 1 <= n <= |list|
    ensures NumberOf(list, list[n - 1]) == n
  {
    var m := NumberOf(list, list[n - 1]);
    assert list[m - 1] == list[n - 1];
  }

  /** Every list of `lists` is the beginning of its list in `grown`. */
  ghost predicate Grown(lists: Lists, grown: Lists) {
    forall kind :: ListOf(lists, kind) <= ListOf(grown, kind)
  }

  /** Every placeholder in the text was given to some value. */
  ghost predicate Known(ps: seq<Piece>, lists: Lists) {
    forall i | 0 <= i < |ps| && ps[i].Mark? :: 1 <= ps[i].n <= |ListOf(lists, ps[i].kind)|
  }

  /** A placeholder means the same for as long as the redactor is kept. */
  lemma {:induction false} EarlierTextStillReads(ps: seq<Piece>, lists: Lists, grown: Lists, kinds: set<Kind>)
    requires Known(ps, lists) && Grown(lists, grown)
    ensures Known(ps, grown) && Undone(ps, grown, kinds) == Undone(ps, lists, kinds)
    decreases |ps|
  {
    if ps != [] {
      if ps[0].Mark? {
        assert ListOf(lists, ps[0].kind) <= ListOf(grown, ps[0].kind);
      }
      assert Known(ps[1..], lists) by {
        forall i | 0 <= i < |ps[1..]| && ps[1..][i].Mark?
          ensures 1 <= ps[1..][i].n <= |ListOf(lists, ps[1..][i].kind)|
        {
          assert ps[1..][i] == ps[i + 1];
        }
      }
      EarlierTextStillReads(ps[1..], lists, grown, kinds);
      assert forall i | 1 <= i < |ps| :: ps[i] == ps[1..][i - 1];
    }
  }

  lemma {:induction false} SwappedIsKnown(ps: seq<Piece>, from: nat, spans: seq<Span>, kind: Kind, lists: Lists)
    requires Known(ps, lists) && from <= |ps| && InOrder(spans, from, |ps|)
    requires forall s | s in spans :: s.lo <= s.hi <= |ps| && Render(ps[s.lo..s.hi]) in ListOf(lists, kind)
    ensures Known(Swapped(ps, from, spans, kind, ListOf(lists, kind)), lists)
    decreases |spans|
  {
    if spans != [] {
      SwappedIsKnown(ps, spans[0].hi, spans[1..], kind, lists);
    }
  }

  /** Kinds that are not put back: what is restored shows their placeholder, and all else restored around it. */
  function UndoneAround(ps: seq<Piece>, from: nat, spans: seq<Span>, kind: Kind, lists: Lists, kinds: set<Kind>): string
    requires InOrder(spans, from, |ps|) && from <= |ps|
    requires forall s | s in spans :: s.lo <= s.hi <= |ps| && Render(ps[s.lo..s.hi]) in ListOf(lists, kind)
    decreases |spans|
  {
    if spans == [] then Undone(ps[from..], lists, kinds)
    else
      var s := spans[0];
      Undone(ps[from..s.lo], lists, kinds)
      + PlaceholderText(kind, NumberOf(ListOf(lists, kind), Render(ps[s.lo..s.hi])))
      + UndoneAround(ps, s.hi, spans[1..], kind, lists, kinds)
  }

  lemma {:induction false} OthersStayReplaced(
      ps: seq<Piece>, from: nat, spans: seq<Span>, kind: Kind, lists: Lists, kinds: set<Kind>)
    requires from <= |ps| && InOrder(spans, from, |ps|) && kind !in kinds
    requires forall s | s in spans :: s.lo <= s.hi <= |ps| && Render(ps[s.lo..s.hi]) in ListOf(lists, kind)
    ensures Undone(Swapped(ps, from, spans, kind, ListOf(lists, kind)), lists, kinds)
              == UndoneAround(ps, from, spans, kind, lists, kinds)
    decreases |spans|
  {
    hide Undone, UndonePiece, Render, PlaceholderText;
    if spans != [] {
      var s := spans[0];
      assert s in spans;
      InOrderFits(spans, from, |ps|);
      var mark := Mark(kind, NumberOf(ListOf(lists, kind), Render(ps[s.lo..s.hi])));
      OthersStayReplaced(ps, s.hi, spans[1..], kind, lists, kinds);
      UndoneThree(ps[from..s.lo], [mark], Swapped(ps, s.hi, spans[1..], kind, ListOf(lists, kind)), lists, kinds);
      MarkIsShown(mark, lists, kinds);
    }
  }

  lemma MarkIsShown(mark: Piece, lists: Lists, kinds: set<Kind>)
    requires mark.Mark? && mark.kind !in kinds
    ensures Undone([mark], lists, kinds) == PlaceholderText(mark.kind, mark.n)
  {
    assert Undone([mark], lists, kinds) == UndonePiece(mark, lists, kinds) + Undone([mark][1..], lists, kinds);
  }

  // ── One stage after another ───────────────────────────────────────────

  /** What was found can be replaced: every stretch has a number. */
  ghost predicate Fits(f: Found, lists: Lists) {
    && InOrder(f.spans, 0, |f.ps|)
    && forall s | s in f.spans :: s.lo <= s.hi <= |f.ps| && Render(f.ps[s.lo..s.hi]) in ListOf(lists, f.kind)
  }

  ghost function After(f: Found, lists: Lists): seq<Piece>
    requires Fits(f, lists)
  {
    Swapped(f.ps, 0, f.spans, f.kind, ListOf(lists, f.kind))
  }

  /** Each stage found in what the stage before it left, from `start` to `out`. */
  ghost predicate LeadsTo(start: seq<Piece>, found: seq<Found>, lists: Lists, out: seq<Piece>) {
    if found == [] then out == start
    else
      var last := found[|found| - 1];
      Fits(last, lists) && out == After(last, lists) && LeadsTo(start, found[..|found| - 1], lists, last.ps)
  }

  predicate InRange(found: seq<Found>) {
    forall f | f in found :: forall s | s in f.spans :: s.lo <= s.hi <= |f.ps|
  }

  /** The values of a kind, in the order they were first found. */
  function Numbered(list: seq<string>, found: seq<Found>, kind: Kind): seq<string>
    requires InRange(found)
  {
    if found == [] then list
    else
      var last, before := found[|found| - 1], Numbered(list, found[..|found| - 1], kind);
      if last.kind == kind then AddSpans(before, last.ps, last.spans) else before
  }

  /** Each kind's values are those it had, and then those that were found. */
  ghost predicate NumberedBy(lists: Lists, found: seq<Found>, after: Lists)
    requires InRange(found)
  {
    forall kind :: ListOf(after, kind) == Numbered(ListOf(lists, kind), found, kind)
  }

  lemma NumberedOnce(lists: Lists, found: seq<Found>, before: Lists, after: Lists, next: Found)
    requires InRange(found) && NumberedBy(lists, found, before) && forall s | s in next.spans :: s.lo <= s.hi <= |next.ps|
    requires ListOf(after, next.kind) == AddSpans(ListOf(before, next.kind), next.ps, next.spans)
    requires forall other | other != next.kind :: ListOf(after, other) == ListOf(before, other)
    ensures InRange(found + [next]) && NumberedBy(lists, found + [next], after)
  {
    hide AddSpans, ListOf;
    assert (found + [next])[..|found|] == found;
    forall kind
      ensures ListOf(after, kind) == Numbered(ListOf(lists, kind), found + [next], kind)
    {
      assert ListOf(before, kind) == Numbered(ListOf(lists, kind), found, kind);
    }
  }

  lemma NothingNumbered(lists: Lists)
    ensures NumberedBy(lists, [], lists)
  {
  }

  /** Nothing that was replaced changes as more values get their numbers. */
  lemma {:induction false} SwappedStays(
      ps: seq<Piece>, from: nat, spans: seq<Span>, kind: Kind, list: seq<string>, grown: seq<string>)
    requires list <= grown && InOrder(spans, from, |ps|) && from <= |ps|
    requires forall s | s in spans :: s.lo <= s.hi <= |ps| && Render(ps[s.lo..s.hi]) in list
    ensures forall s | s in spans :: Render(ps[s.lo..s.hi]) in grown
    ensures Swapped(ps, from, spans, kind, grown) == Swapped(ps, from, spans, kind, list)
    decreases |spans|
  {
    hide Render, NumberOf;
    assert forall v | v in list :: v in grown;
    if spans != [] {
      NumbersStay(list, grown, Render(ps[spans[0].lo..spans[0].hi]));
      SwappedStays(ps, spans[0].hi, spans[1..], kind, list, grown);
    }
  }

  lemma {:induction false} LeadsToStays(start: seq<Piece>, found: seq<Found>, lists: Lists, grown: Lists, out: seq<Piece>)
    requires LeadsTo(start, found, lists, out) && Grown(lists, grown)
    ensures LeadsTo(start, found, grown, out)
  {
    hide Swapped, Render;
    if found != [] {
      var last := found[|found| - 1];
      assert ListOf(lists, last.kind) <= ListOf(grown, last.kind);
      SwappedStays(last.ps, 0, last.spans, last.kind, ListOf(lists, last.kind), ListOf(grown, last.kind));
      LeadsToStays(start, found[..|found| - 1], lists, grown, last.ps);
    }
  }

  lemma LeadsNowhere(start: seq<Piece>, lists: Lists)
    ensures LeadsTo(start, [], lists, start)
  {
  }

  lemma LeadsOn(start: seq<Piece>, found: seq<Found>, lists: Lists, next: Found)
    requires LeadsTo(start, found, lists, next.ps) && Fits(next, lists)
    ensures LeadsTo(start, found + [next], lists, After(next, lists))
  {
    hide After, Fits;
    assert (found + [next])[..|found|] == found;
  }

  lemma OneMoreStage(start: seq<Piece>, found: seq<Found>, before: Lists, lists: Lists, next: Found)
    requires LeadsTo(start, found, before, next.ps) && Grown(before, lists) && InOrder(next.spans, 0, |next.ps|)
    requires forall s | s in next.spans ::
               s.lo <= s.hi <= |next.ps| && Render(next.ps[s.lo..s.hi]) in ListOf(lists, next.kind)
    ensures LeadsTo(start, found + [next], lists,
                    Swapped(next.ps, 0, next.spans, next.kind, ListOf(lists, next.kind)))
  {
    hide Swapped, Render, ListOf, Grown, InOrder, LeadsTo;
    LeadsToStays(start, found, before, lists, next.ps);
    LeadsOn(start, found, lists, next);
  }

  function CountOf(counts: map<Kind, nat>, kind: Kind): nat {
    if kind in counts then counts[kind] else 0
  }

  /** The placeholders and counts are those of the lists: each value once, under its place in its list. */
  ghost predicate Indexed(placeholders: map<(Kind, string), Piece>, counts: map<Kind, nat>, lists: Lists) {
    && (forall kind :: Counted(counts, lists, kind))
    && (forall kind, value :: Listed(placeholders, lists, kind, value))
  }

  predicate Counted(counts: map<Kind, nat>, lists: Lists, kind: Kind) {
    NoRepeats(ListOf(lists, kind)) && CountOf(counts, kind) == |ListOf(lists, kind)|
  }

  predicate Listed(placeholders: map<(Kind, string), Piece>, lists: Lists, kind: Kind, value: string) {
    && ((kind, value) in placeholders <==> value in ListOf(lists, kind))
    && ((kind, value) in placeholders ==>
          placeholders[(kind, value)] == Mark(kind, NumberOf(ListOf(lists, kind), value)))
  }

  lemma IndexedValue(
      placeholders: map<(Kind, string), Piece>, counts: map<Kind, nat>, lists: Lists, kind: Kind, value: string)
    requires Indexed(placeholders, counts, lists)
    ensures (kind, value) in placeholders <==> value in ListOf(lists, kind)
    ensures (kind, value) in placeholders ==>
              placeholders[(kind, value)] == Mark(kind, NumberOf(ListOf(lists, kind), value))
    ensures CountOf(counts, kind) == |ListOf(lists, kind)| && NoRepeats(ListOf(lists, kind))
  {
    assert Counted(counts, lists, kind) && Listed(placeholders, lists, kind, value);
  }

  lemma SameListsIndexed(placeholders: map<(Kind, string), Piece>, counts: map<Kind, nat>, lists: Lists, kind: Kind)
    requires Indexed(placeholders, counts, lists)
    ensures forall k :: ListOf(lists[kind := ListOf(lists, kind)], k) == ListOf(lists, k)
    ensures Indexed(placeholders, counts, lists[kind := ListOf(lists, kind)])
  {
    var same := lists[kind := ListOf(lists, kind)];
    forall k
      ensures Counted(counts, same, k)
    {
      assert Counted(counts, lists, k);
    }
    forall k, v
      ensures Listed(placeholders, same, k, v)
    {
      assert Listed(placeholders, lists, k, v);
    }
  }

  lemma IndexGrows(
      placeholders: map<(Kind, string), Piece>, counts: map<Kind, nat>, lists: Lists, kind: Kind, value: string)
    requires Indexed(placeholders, counts, lists) && (kind, value) !in placeholders
    ensures var list := ListOf(lists, kind);
            var n := |list| + 1;
            && CountOf(counts, kind) == |list| && value !in list
            && Indexed(placeholders[(kind, value) := Mark(kind, n)], counts[kind := n], lists[kind := list + [value]])
  {
    IndexedValue(placeholders, counts, lists, kind, value);
    hide NoRepeats, NumberOf, Counted, Listed, ListOf, CountOf;
    var list := ListOf(lists, kind);
    var n := |list| + 1;
    var after, counted := placeholders[(kind, value) := Mark(kind, n)], counts[kind := n];
    var grown := lists[kind := list + [value]];
    forall k
      ensures Counted(counted, grown, k)
    {
      assert Counted(counts, lists, k);
      CountedAfter(counts, lists, kind, value, k);
    }
    forall k, v
      ensures Listed(after, grown, k, v)
    {
      assert Listed(placeholders, lists, k, v);
      ListedAfter(placeholders, lists, kind, value, k, v);
    }
  }

  lemma ListAfter(lists: Lists, kind: Kind, list: seq<string>, k: Kind)
    ensures ListOf(lists[kind := list], k) == if k == kind then list else ListOf(lists, k)
  {
  }

  lemma CountedAfter(counts: map<Kind, nat>, lists: Lists, kind: Kind, value: string, k: Kind)
    requires Counted(counts, lists, k) && NoRepeats(ListOf(lists, kind)) && value !in ListOf(lists, kind)
    ensures Counted(counts[kind := |ListOf(lists, kind)| + 1], lists[kind := ListOf(lists, kind) + [value]], k)
  {
    hide NoRepeats, ListOf;
    ListAfter(lists, kind, ListOf(lists, kind) + [value], k);
    NoRepeatAdded(ListOf(lists, kind), value);
  }

  lemma ListedAfter(placeholders: map<(Kind, string), Piece>, lists: Lists, kind: Kind, value: string, k: Kind, v: string)
    requires Listed(placeholders, lists, k, v) && NoRepeats(ListOf(lists, kind)) && value !in ListOf(lists, kind)
    ensures Listed(placeholders[(kind, value) := Mark(kind, |ListOf(lists, kind)| + 1)],
                   lists[kind := ListOf(lists, kind) + [value]], k, v)
  {
    hide NoRepeats, NumberOf, ListOf;
    var list := ListOf(lists, kind);
    ListAfter(lists, kind, list + [value], k);
    if k == kind {
      NumberAdded(list, value, v);
    }
  }

  lemma NumberAdded(list: seq<string>, value: string, v: string)
    requires value !in list && NoRepeats(list)
    ensures v in list + [value] <==> v in list || v == value
    ensures v == value ==> NumberOf(list + [value], v) == |list| + 1
    ensures v in list ==> v in list + [value] && NumberOf(list + [value], v) == NumberOf(list, v)
  {
    NoRepeatAdded(list, value);
    if v in list {
      NumbersStay(list, list + [value], v);
    }
  }

  lemma ValueKept(originals: map<string, string>, lists: Lists, kind: Kind, value: string)
    requires Keeps(originals, lists) && value in ListOf(lists, kind)
    ensures var name := PlaceholderText(kind, NumberOf(ListOf(lists, kind), value));
            name in originals && originals[name] == value
  {
    hide PlaceholderText;
  }

  // ── The redactor ──────────────────────────────────────────────────────

  class Redactor {
    const stages: seq<Stage>
    var originals: map<string, string>
    var placeholders: map<(Kind, string), Piece>
    var counts: map<Kind, nat>
    ghost var lists: Lists

    constructor (stages: seq<Stage>)
      ensures Valid() && this.stages == stages && lists == map[]
    {
      this.stages := stages;
      originals, placeholders, counts, lists := map[], map[], map[], map[];
    }

    /** One number per value and kind, counted from 1, and one value per placeholder: the table is a bijection. */
    ghost predicate Valid()
      reads this
    {
      Keeps(originals, lists) && Indexed(placeholders, counts, lists)
    }

    /** How many distinct values of a kind were replaced. */
    function Count(kind: Kind): nat
      reads this
    {
      CountOf(counts, kind)
    }

    /** The placeholder of a value: its own for the whole run, and nobody else's. */
    method Placeholder(kind: Kind, value: string) returns (mark: Piece)
      requires Valid()
      modifies this
      ensures Valid()
      ensures lists == old(lists)[kind := AddValue(ListOf(old(lists), kind), value)]
      ensures mark == Mark(kind, NumberOf(ListOf(lists, kind), value))
      ensures Shown(mark) in originals && originals[Shown(mark)] == value
    {
      hide Keeps, Indexed, PlaceholderText, NumberOf;
      if (kind, value) !in placeholders {
        var n := Count(kind) + 1;
        TableGrows(originals, lists, kind, value);
        IndexGrows(placeholders, counts, lists, kind, value);
        counts := counts[kind := n];
        mark := Mark(kind, n);
        placeholders := placeholders[(kind, value) := mark];
        originals := originals[PlaceholderText(kind, n) := value];
        lists := lists[kind := ListOf(lists, kind) + [value]];
      } else {
        SameListsIndexed(placeholders, counts, lists, kind);
        KeepsSameLists(originals, lists, lists[kind := ListOf(lists, kind)]);
        IndexedValue(placeholders, counts, lists, kind, value);
        lists := lists[kind := ListOf(lists, kind)];
      }
      mark := placeholders[(kind, value)];
      IndexedValue(placeholders, counts, lists, kind, value);
      ValueKept(originals, lists, kind, value);
    }

    /** Replace each stretch by its placeholder, left to right. */
    method Swap(ps: seq<Piece>, spans: seq<Span>, kind: Kind) returns (out: seq<Piece>)
      requires Valid() && InOrder(spans, 0, |ps|) && forall s | s in spans :: s.lo <= s.hi <= |ps|
      modifies this
      ensures Valid() && Grown(old(lists), lists)
      ensures ListOf(lists, kind) == AddSpans(ListOf(old(lists), kind), ps, spans)
      ensures forall other | other != kind :: ListOf(lists, other) == ListOf(old(lists), other)
      ensures forall s | s in spans :: Render(ps[s.lo..s.hi]) in ListOf(lists, kind)
      ensures out == Swapped(ps, 0, spans, kind, ListOf(lists, kind))
    {
      hide Valid, Render, Shown, Swapped, NumberOf, Grown, AddSpans, AddValue, InOrder;
      ghost var all := AddSpans(ListOf(lists, kind), ps, spans);
      AddSpansGrows(ListOf(lists, kind), ps, spans);
      GrownReflexive(lists);
      out := [];
      var pos: nat := 0;
      for i := 0 to |spans|
        invariant Valid() && Grown(old(lists), lists)
        invariant pos <= |ps| && InOrder(spans[i..], pos, |ps|)
        invariant AddSpans(ListOf(lists, kind), ps, spans[i..]) == all
        invariant forall other | other != kind :: ListOf(lists, other) == ListOf(old(lists), other)
        invariant out + Swapped(ps, pos, spans[i..], kind, all) == Swapped(ps, 0, spans, kind, all)
      {
        var s := spans[i];
        assert spans[i..][0] == s && spans[i..][1..] == spans[i + 1..];
        SwapOnce(out, ps, pos, spans[i..], kind, ListOf(lists, kind), all);
        GrownByOne(old(lists), lists, kind, Render(ps[s.lo..s.hi]));
        var mark := Placeholder(kind, Render(ps[s.lo..s.hi]));
        out := out + ps[pos..s.lo] + [mark];
        pos := s.hi;
      }
      SwappedNone(ps, pos, kind, all);
      NothingAdded(ListOf(lists, kind), ps);
      out := out + ps[pos..];
    }

    /**
     The text with everything the stages find replaced, one stage after another. Where all that was
     found is of kinds that may be put back, restoring gives the escaped text itself.
     */
    method Redact(text: string) returns (out: seq<Piece>, ghost found: seq<Found>)
      requires Valid() && forall st | st in stages :: FindsInOrder(st.find)
      modifies this
      ensures Valid() && Grown(old(lists), lists)
      ensures Clean(out) && Known(out, lists)
      ensures |found| == (if text == "" then 0 else |stages|) && forall k | 0 <= k < |found| ::
                found[k].kind == stages[k].kind && found[k].spans == stages[k].find(found[k].ps)
      ensures LeadsTo(AsPieces(Escape(text)), found, lists, out)
      ensures InRange(found) && NumberedBy(old(lists), found, lists)
      ensures text == "" ==> out == []
      ensures forall kinds | MayAllBeRestored(found, kinds) :: RestoreText(Render(out), originals, kinds) == Escape(text)
    {
      hide Valid, Clean, Known, Grown, Render, Undone, RestoreText, Escape, AsPieces, Swapped, FindsInOrder;
      hide OverRaw, LeadsTo, AddSpans, RestoresTo, NumberedBy;
      ghost var start := AsPieces(Escape(text));
      GrownReflexive(lists);
      LeadsNowhere(start, lists);
      NothingNumbered(lists);
      out, found := AsPieces(Escape(text)), [];
      EscapedIsClean(text);
      if text == "" {
        NothingToRedact(originals);
        return;
      }
      EscapedIsRaw(Escape(text), lists);
      NothingFound(start, lists, Escape(text));
      for k := 0 to |stages|
        invariant Valid() && Grown(old(lists), lists) && Clean(out) && Known(out, lists)
        invariant |found| == k && LeadsTo(start, found, lists, out)
        invariant InRange(found) && NumberedBy(old(lists), found, lists)
        invariant forall j | 0 <= j < k :: found[j].kind == stages[j].kind && found[j].spans == stages[j].find(found[j].ps)
        invariant RestoresTo(out, found, lists, Escape(text))
      {
        var stage := stages[k];
        assert stage in stages;
        SpansFound(stage.find, out);
        var spans := stage.find(out);
        var was := out;
        ghost var before := lists;
        out := Swap(was, spans, stage.kind);
        ghost var next := Found(stage.kind, was, spans);
        OneMoreStage(start, found, before, lists, next);
        NumberedOnce(old(lists), found, before, lists, next);
        StageKeeps(was, spans, stage.kind, before, lists);
        GrownTransitive(old(lists), before, lists);
        StageRestores(found, before, lists, next, Escape(text));
        found := found + [next];
      }
      forall kinds | MayAllBeRestored(found, kinds)
        ensures RestoreText(Render(out), originals, kinds) == Escape(text)
      {
        Restores(out, kinds);
        RestoredFor(out, found, lists, Escape(text), kinds);
      }
    }

    /** Put values back: exactly the replacements of the given kinds are undone, each to its own value. */
    method Restore(text: string, kinds: set<Kind>) returns (r: string)
      requires Valid()
      ensures r == RestoreText(text, originals, kinds)
      ensures forall ps: seq<Piece> | Clean(ps) && text == Render(ps) :: r == Undone(ps, lists, kinds)
    {
      r := RestoreText(text, originals, kinds);
      forall ps: seq<Piece> | Clean(ps) && text == Render(ps)
        ensures r == Undone(ps, lists, kinds)
      {
        Restores(ps, kinds);
      }
    }

    lemma Restores(ps: seq<Piece>, kinds: set<Kind>)
      requires Valid() && Clean(ps)
      ensures RestoreText(Render(ps), originals, kinds) == Undone(ps, lists, kinds)
    {
      RestoringUndoes(ps, originals, lists, kinds);
    }

    /** Two values have one placeholder only when they are the same value of the same kind. */
    lemma TableIsABijection(k: Kind, v: string, l: Kind, w: string)
      requires Valid() && (k, v) in placeholders && (l, w) in placeholders
      ensures Shown(placeholders[(k, v)]) == Shown(placeholders[(l, w)]) ==> k == l && v == w
      ensures Shown(placeholders[(k, v)]) in originals && originals[Shown(placeholders[(k, v)])] == v
    {
      hide PlaceholderText, Indexed;
      IndexedValue(placeholders, counts, lists, k, v);
      IndexedValue(placeholders, counts, lists, l, w);
      var m, n := placeholders[(k, v)].n, placeholders[(l, w)].n;
      if PlaceholderText(k, m) == PlaceholderText(l, n) {
        PlaceholdersAreDistinct(k, m, l, n);
      }
      IndexedValue(placeholders, counts, lists, k, v);
      ValueKept(originals, lists, k, v);
    }
  }

  ghost predicate FindsInOrder(f: Finder) {
    forall ps :: InOrder(f(ps), 0, |ps|)
  }

  /** Everything found is characters of the input, of a kind that is put back. */
  predicate MayAllBeRestored(found: seq<Found>, kinds: set<Kind>) {
    forall f | f in found :: f.spans == [] || (f.kind in kinds && OverRaw(f.ps, f.spans))
  }

  /** What was done to `text` is undone wherever all of it may be. */
  ghost predicate RestoresTo(ps: seq<Piece>, found: seq<Found>, lists: Lists, text: string) {
    forall kinds | MayAllBeRestored(found, kinds) :: Undone(ps, lists, kinds) == text
  }

  lemma RestoredFor(ps: seq<Piece>, found: seq<Found>, lists: Lists, text: string, kinds: set<Kind>)
    requires RestoresTo(ps, found, lists, text) && MayAllBeRestored(found, kinds)
    ensures Undone(ps, lists, kinds) == text
  {
  }

  lemma NothingFound(ps: seq<Piece>, lists: Lists, text: string)
    requires forall kinds :: Undone(ps, lists, kinds) == text
    ensures RestoresTo(ps, [], lists, text)
  {
  }

  lemma StageRestores(found: seq<Found>, before: Lists, lists: Lists, next: Found, text: string)
    requires RestoresTo(next.ps, found, before, text)
    requires Known(next.ps, before) && Grown(before, lists) && InOrder(next.spans, 0, |next.ps|)
    requires forall s | s in next.spans ::
               s.lo <= s.hi <= |next.ps| && Render(next.ps[s.lo..s.hi]) in ListOf(lists, next.kind)
    ensures RestoresTo(Swapped(next.ps, 0, next.spans, next.kind, ListOf(lists, next.kind)), found + [next], lists, text)
  {
    hide Undone, Known, Grown, InOrder, Render, ListOf, Swapped, OverRaw;
    forall kinds | MayAllBeRestored(found + [next], kinds)
      ensures Undone(Swapped(next.ps, 0, next.spans, next.kind, ListOf(lists, next.kind)), lists, kinds) == text
    {
      assert forall f | f in found :: f in found + [next];
      assert next in found + [next];
      EarlierTextStillReads(next.ps, before, lists, kinds);
      StageIsUndone(next.ps, next.spans, next.kind, lists, kinds);
    }
  }

  lemma SpansFound(f: Finder, ps: seq<Piece>)
    requires FindsInOrder(f)
    ensures InOrder(f(ps), 0, |ps|) && forall s | s in f(ps) :: s.lo <= s.hi <= |ps|
  {
    InOrderFits(f(ps), 0, |ps|);
  }

  lemma NothingToRedact(originals: map<string, string>)
    ensures Escape("") == "" && AsPieces("") == [] && Render([]) == ""
    ensures forall kinds :: RestoreText("", originals, kinds) == ""
    ensures forall lists :: Known([], lists)
  {
  }

  lemma EscapedIsRaw(s: string, lists: Lists)
    ensures Known(AsPieces(s), lists)
    ensures forall kinds :: Undone(AsPieces(s), lists, kinds) == s
  {
    RenderOfRaw(s);
    forall kinds
      ensures Undone(AsPieces(s), lists, kinds) == s
    {
      UndoneRaw(AsPieces(s), lists, kinds);
    }
  }

  lemma StageKeeps(ps: seq<Piece>, spans: seq<Span>, kind: Kind, before: Lists, lists: Lists)
    requires Clean(ps) && Known(ps, before) && Grown(before, lists) && InOrder(spans, 0, |ps|)
    requires forall s | s in spans :: s.lo <= s.hi <= |ps| && Render(ps[s.lo..s.hi]) in ListOf(lists, kind)
    ensures Clean(Swapped(ps, 0, spans, kind, ListOf(lists, kind)))
    ensures Known(Swapped(ps, 0, spans, kind, ListOf(lists, kind)), lists)
  {
    EarlierTextStillReads(ps, before, lists, {});
    SwappedIsClean(ps, 0, spans, kind, ListOf(lists, kind));
    SwappedIsKnown(ps, 0, spans, kind, lists);
  }

  lemma StageIsUndone(ps: seq<Piece>, spans: seq<Span>, kind: Kind, lists: Lists, kinds: set<Kind>)
    requires InOrder(spans, 0, |ps|) && (spans == [] || (kind in kinds && OverRaw(ps, spans)))
    requires forall s | s in spans :: s.lo <= s.hi <= |ps| && Render(ps[s.lo..s.hi]) in ListOf(lists, kind)
    ensures Undone(Swapped(ps, 0, spans, kind, ListOf(lists, kind)), lists, kinds) == Undone(ps, lists, kinds)
  {
    assert ps[0..] == ps;
    if spans != [] {
      SwappingIsUndone(ps, 0, spans, kind, lists, kinds);
    }
  }

  lemma SwappedOne(out: seq<Piece>, ps: seq<Piece>, from: nat, spans: seq<Span>, kind: Kind, list: seq<string>)
    requires spans != [] && from <= |ps| && InOrder(spans, from, |ps|)
    requires forall s | s in spans :: s.lo <= s.hi <= |ps| && Render(ps[s.lo..s.hi]) in list
    ensures var s := spans[0];
            && from <= s.lo
            && out + Swapped(ps, from, spans, kind, list)
               == (out + ps[from..s.lo] + [Mark(kind, NumberOf(list, Render(ps[s.lo..s.hi])))])
                  + Swapped(ps, s.hi, spans[1..], kind, list)
  {
    hide Render, NumberOf;
  }

  /** One stretch replaced: its text has its final number as soon as it has one. */
  lemma SwapOnce(
      out: seq<Piece>, ps: seq<Piece>, from: nat, spans: seq<Span>, kind: Kind, list: seq<string>, all: seq<string>)
    requires spans != [] && from <= |ps| && InOrder(spans, from, |ps|)
    requires forall s | s in spans :: s.lo <= s.hi <= |ps|
    requires all == AddSpans(list, ps, spans)
    ensures forall s | s in spans :: Render(ps[s.lo..s.hi]) in all
    ensures var s := spans[0];
            var value := Render(ps[s.lo..s.hi]);
            var next := AddValue(list, value);
            && from <= s.lo && InOrder(spans[1..], s.hi, |ps|)
            && all == AddSpans(next, ps, spans[1..])
            && value in next
            && out + Swapped(ps, from, spans, kind, all)
               == (out + ps[from..s.lo] + [Mark(kind, NumberOf(next, value))]) + Swapped(ps, s.hi, spans[1..], kind, all)
  {
    hide Render, NumberOf, Swapped;
    var s := spans[0];
    var next := AddValue(list, Render(ps[s.lo..s.hi]));
    AddSpansGrows(list, ps, spans);
    AddSpansGrows(next, ps, spans[1..]);
    NumbersStay(next, all, Render(ps[s.lo..s.hi]));
    SwappedOne(out, ps, from, spans, kind, all);
  }

  lemma NothingAdded(list: seq<string>, ps: seq<Piece>)
    ensures AddSpans(list, ps, []) == list
  {
  }

  lemma SwappedNone(ps: seq<Piece>, from: nat, kind: Kind, list: seq<string>)
    requires from <= |ps|
    ensures Swapped(ps, from, [], kind, list) == ps[from..]
  {
  }

  lemma GrownReflexive(lists: Lists)
    ensures Grown(lists, lists)
  {
  }

  lemma GrownTransitive(a: Lists, b: Lists, c: Lists)
    requires Grown(a, b) && Grown(b, c)
    ensures Grown(a, c)
  {
    forall k
      ensures ListOf(a, k) <= ListOf(c, k)
    {
      assert ListOf(a, k) <= ListOf(b, k) && ListOf(b, k) <= ListOf(c, k);
    }
  }

  lemma GrownByOne(start: Lists, before: Lists, kind: Kind, value: string)
    requires Grown(start, before)
    ensures Grown(start, before[kind := AddValue(ListOf(before, kind), value)])
  {
    var after := before[kind := AddValue(ListOf(before, kind), value)];
    forall k
      ensures ListOf(start, k) <= ListOf(after, k)
    {
      assert ListOf(start, k) <= ListOf(before, k);
    }
  }

  lemma NoRepeatAdded(list: seq<string>, value: string)
    requires value !in list && NoRepeats(list)
    ensures NoRepeats(list + [value]) && value in list + [value] && NumberOf(list + [value], value) == |list| + 1
  {
    var grown := list + [value];
    assert grown[|list|] == value;
    NumberIsPlace(grown, |list| + 1);
  }

  lemma TableGrows(originals: map<string, string>, lists: Lists, kind: Kind, value: string)
    requires Keeps(originals, lists)
    ensures Keeps(originals[PlaceholderText(kind, |ListOf(lists, kind)| + 1) := value],
                  lists[kind := ListOf(lists, kind) + [value]])
  {
    hide PlaceholderText, ListOf;
    var list := ListOf(lists, kind);
    var n := |list| + 1;
    var name := PlaceholderText(kind, n);
    var after, grown := originals[name := value], lists[kind := list + [value]];
    forall k, m: nat | 1 <= m <= |ListOf(grown, k)|
      ensures PlaceholderText(k, m) in after && after[PlaceholderText(k, m)] == ListOf(grown, k)[m - 1]
    {
      ListAfter(lists, kind, list + [value], k);
      if PlaceholderText(k, m) == name {
        PlaceholdersAreDistinct(k, m, kind, n);
      } else {
        assert 1 <= m <= |ListOf(lists, k)|;
      }
    }
    forall t | t in after
      ensures exists k, m: nat :: 1 <= m <= |ListOf(grown, k)| && t == PlaceholderText(k, m)
    {
      NamesStay(originals, lists, kind, value, t);
    }
  }

  lemma NamesStay(originals: map<string, string>, lists: Lists, kind: Kind, value: string, t: string)
    requires Keeps(originals, lists)
    requires t in originals || t == PlaceholderText(kind, |ListOf(lists, kind)| + 1)
    ensures var grown := lists[kind := ListOf(lists, kind) + [value]];
            exists k, m: nat :: 1 <= m <= |ListOf(grown, k)| && t == PlaceholderText(k, m)
  {
    hide PlaceholderText, ListOf;
    var list := ListOf(lists, kind);
    var grown := lists[kind := list + [value]];
    ListAfter(lists, kind, list + [value], kind);
    if t == PlaceholderText(kind, |list| + 1) {
      assert 1 <= |list| + 1 <= |ListOf(grown, kind)|;
    } else {
      var k, m: nat :| 1 <= m <= |ListOf(lists, k)| && t == PlaceholderText(k, m);
      ListAfter(lists, kind, list + [value], k);
      assert 1 <= m <= |ListOf(grown, k)|;
    }
  }

  lemma KeepsSameLists(originals: map<string, string>, lists: Lists, same: Lists)
    requires Keeps(originals, lists) && forall k :: ListOf(same, k) == ListOf(lists, k)
    ensures Keeps(originals, same)
  {
    forall t | t in originals
      ensures exists k, m: nat :: 1 <= m <= |ListOf(same, k)| && t == PlaceholderText(k, m)
    {
      var k, m: nat :| 1 <= m <= |ListOf(lists, k)| && t == PlaceholderText(k, m);
      assert 1 <= m <= |ListOf(same, k)|;
    }
  }
}
