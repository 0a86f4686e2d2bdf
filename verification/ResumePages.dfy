/**
 The budgeted assembly of a resume bundle: sections in contractual order, one hard stop where the
 budget cuts, one continuation cursor, and a coverage entry that accounts for every section.
 */
module ResumePages {
  import opened Options

  /** An item is identified by a name and costs a quarter of its serialized length. */
  datatype Item = Item(name: string, cost: nat)

  /** `hidden` counts suppressed ids: part of the total, never delivered on any page. */
  datatype Section = Section(requested: bool, items: seq<Item>, hidden: nat)

  datatype Cursor = Cursor(section: nat, offset: nat)

  datatype Reason = NoReason | NotRequested | ByCursor | ByBudget | Suppressed

  datatype Coverage = Coverage(
    includedCount: nat, totalCount: nat, contentComplete: bool, omittedReason: Reason,
    nextCursor: Option<Cursor>, tokenEstimate: nat)

  datatype Page = Page(included: seq<seq<Item>>, coverage: seq<Coverage>, totalTokenEstimate: nat)

  type Sections = seq<Section>

  function Min(a: nat, b: nat): nat { if a < b then a else b }

  ghost function Cost(items: seq<Item>): nat {
    if items == [] then 0 else Cost(items[..|items| - 1]) + items[|items| - 1].cost
  }

  ghost function TotalCost(included: seq<seq<Item>>): nat {
    if included == [] then 0 else TotalCost(included[..|included| - 1]) + Cost(included[|included| - 1])
  }

  /** How many items of section i the pages before this cursor have delivered. */
  function Before(sections: Sections, cursor: Option<Cursor>, i: nat): nat
    requires i < |sections|
  {
    var length := |sections[i].items|;
    if cursor.None? || i > cursor.value.section then 0
    else if i < cursor.value.section then length
    else Min(cursor.value.offset, length)
  }

  /** How many items of section i have been delivered once this page has; all of them when nothing is left. */
  function After(sections: Sections, next: Option<Cursor>, i: nat): nat
    requires i < |sections|
  {
    if next.None? then |sections[i].items| else Before(sections, next, i)
  }

  /** Well-formed: it names a section of the order; a malformed cursor is refused before assembly. */
  predicate Names(sections: Sections, cursor: Option<Cursor>) {
    cursor.Some? ==> cursor.value.section < |sections|
  }

  /** A coverage entry closes its section: complete means everything is there, incomplete says why. */
  ghost predicate Closed(s: Section, included: seq<Item>, c: Coverage) {
    && c.includedCount == |included|
    && c.totalCount == |s.items| + s.hidden
    && c.tokenEstimate == Cost(included)
    && (c.contentComplete ==> c.includedCount == c.totalCount && c.omittedReason == NoReason && c.nextCursor.None?)
    && (!c.contentComplete ==> c.omittedReason != NoReason)
    && (c.nextCursor.Some? ==> c.omittedReason == ByBudget)
    && (!s.requested ==> c.omittedReason == NotRequested)
  }

  /**
   What an entry says of a section, exactly: complete when all of it is on this page and nothing is
   hidden, and otherwise the one reason why not.
   */
  ghost predicate Accounted(sections: Sections, cursor: Option<Cursor>, i: nat, included: seq<Item>, c: Coverage)
    requires i < |sections|
  {
    var s, delivered := sections[i], Before(sections, cursor, i) + |included|;
    var earlier := cursor.Some? && i < cursor.value.section;
    && (c.contentComplete <==> s.requested && !earlier && included == s.items && s.hidden == 0)
    && c.omittedReason == (if !s.requested then NotRequested
                           else if earlier then ByCursor
                           else if delivered < |s.items| then ByBudget
                           else if s.hidden > 0 then Suppressed
                           else if included == s.items then NoReason
                           else ByCursor)
  }

  /** Section i on the page for `cursor` that continues at `next`. */
  ghost predicate SectionDone(sections: Sections, cursor: Option<Cursor>, next: Option<Cursor>, i: nat,
                              included: seq<Item>, c: Coverage)
    requires i < |sections|
  {
    && Before(sections, cursor, i) <= After(sections, next, i)
    && included == (if sections[i].requested
      then sections[i].items[Before(sections, cursor, i)..After(sections, next, i)] else [])
    && Closed(sections[i], included, c)
    && Accounted(sections, cursor, i, included, c)
    && c.nextCursor == if next.Some? && next.value.section == i then next else None
  }

  /** The cursor names a requested item that no longer fits. */
  ghost predicate StopsAt(sections: Sections, at: Cursor, spent: nat, budget: nat) {
    && at.section < |sections| && sections[at.section].requested
    && at.offset < |sections[at.section].items|
    && spent + sections[at.section].items[at.offset].cost > budget
  }

  /**
   The page for `cursor`, continued at `next`: every requested section delivers exactly the stretch
   from where the earlier pages stopped to where the next page starts; `next` is the one cursor
   there is; and the page stops only at an item that no longer fits.
   */
  ghost predicate IsPage(sections: Sections, cursor: Option<Cursor>, budget: nat, page: Page, next: Option<Cursor>) {
    && |page.included| == |page.coverage| == |sections|
    && (forall i :: 0 <= i < |sections| ==> SectionDone(sections, cursor, next, i, page.included[i], page.coverage[i]))
    && page.totalTokenEstimate == TotalCost(page.included) <= budget
    && (next.Some? ==> StopsAt(sections, next.value, page.totalTokenEstimate, budget))
  }

  /** The cursor a client continues at: the one its page's coverage carries, if any. */
  function Continuation(coverage: seq<Coverage>): Option<Cursor> {
    if coverage == [] then None
    else if coverage[0].nextCursor.Some? then coverage[0].nextCursor
    else Continuation(coverage[1..])
  }

  lemma {:induction false} ContinuesAt(coverage: seq<Coverage>, at: Option<Cursor>)
    requires at.Some? ==> exists i :: 0 <= i < |coverage| && coverage[i].nextCursor == at
    requires forall i :: 0 <= i < |coverage| ==> coverage[i].nextCursor == at || coverage[i].nextCursor.None?
    ensures Continuation(coverage) == at
  {
    if coverage != [] && coverage[0].nextCursor.None? {
      if at.Some? {
        var i :| 0 <= i < |coverage| && coverage[i].nextCursor == at;
        assert coverage[1..][i - 1].nextCursor == at;
      }
      ContinuesAt(coverage[1..], at);
    }
  }

  lemma PageContinues(sections: Sections, cursor: Option<Cursor>, budget: nat, page: Page, next: Option<Cursor>)
    requires IsPage(sections, cursor, budget, page, next)
    ensures Continuation(page.coverage) == next
  {
    hide Closed, TotalCost, Before, After;
    forall i | 0 <= i < |page.coverage|
      ensures page.coverage[i].nextCursor == if next.Some? && next.value.section == i then next else None
    {
      assert SectionDone(sections, cursor, next, i, page.included[i], page.coverage[i]);
    }
    if next.Some? {
      assert page.coverage[next.value.section].nextCursor == next;
    }
    ContinuesAt(page.coverage, next);
  }

  // ----- The assembly loop

  lemma CostSnoc(items: seq<Item>, item: Item)
    ensures Cost(items + [item]) == Cost(items) + item.cost
  {
    assert (items + [item])[..|items|] == items;
  }

  lemma TotalSnoc(included: seq<seq<Item>>, last: seq<Item>)
    ensures TotalCost(included + [last]) == TotalCost(included) + Cost(last)
  {
    assert (included + [last])[..|included|] == included;
  }

  /** The inner loop: take items until one does not fit. */
  method TakeWithinBudget(items: seq<Item>, spent: nat, budget: nat) returns (taken: seq<Item>, total: nat, cut: bool)
    requires spent <= budget
    ensures taken <= items
    ensures total == spent + Cost(taken) <= budget
    ensures cut <==> taken != items
    ensures cut ==> |taken| < |items| && total + items[|taken|].cost > budget
  {
    taken, total, cut := [], spent, false;
    for i := 0 to |items|
      invariant taken == items[..i]
      invariant total == spent + Cost(taken) <= budget
    {
      if total + items[i].cost > budget {
        return taken, total, true;
      }
      CostSnoc(taken, items[i]);
      taken := taken + [items[i]];
      total := total + items[i].cost;
      assert taken == items[..i + 1];
    }
  }

  /** A section that is delivered on this page, from `start`: what it takes and how it is accounted for. */
  method DeliverSection(s: Section, i: nat, start: nat, spent: nat, budget: nat)
    returns (taken: seq<Item>, coverage: Coverage, total: nat, cut: bool)
    requires s.requested && start <= |s.items| && spent <= budget
    ensures start + |taken| <= |s.items| && taken == s.items[start..start + |taken|]
    ensures total == spent + Cost(taken) <= budget
    ensures Closed(s, taken, coverage)
    ensures coverage.contentComplete <==> taken == s.items && s.hidden == 0
    ensures coverage.omittedReason ==
      if start + |taken| < |s.items| then ByBudget
      else if s.hidden > 0 then Suppressed
      else if taken == s.items then NoReason
      else ByCursor
    ensures !cut ==> start + |taken| == |s.items| && coverage.nextCursor.None?
    ensures cut ==> start + |taken| < |s.items| && coverage.nextCursor == Some(Cursor(i, start + |taken|))
    ensures cut ==> total + s.items[start + |taken|].cost > budget
  {
    taken, total, cut := TakeWithinBudget(s.items[start..], spent, budget);
    var complete := start == 0 && |taken| == |s.items|;
    var delivered := complete || start + |taken| >= |s.items|;
    coverage := Coverage(
      |taken|, |s.items| + s.hidden, complete && s.hidden == 0,
      if delivered then (if s.hidden > 0 then Suppressed else if complete then NoReason else ByCursor) else ByBudget,
      if delivered then None else Some(Cursor(i, start + |taken|)),
      total - spent);
  }

  /** emptyCoverage, for a section that delivers nothing on this page. */
  function EmptyCoverage(s: Section, reason: Reason, complete: bool): Coverage {
    Coverage(0, |s.items| + s.hidden, complete, reason, None, 0)
  }

  /** Cutting in section i leaves the sections before it as they were: delivered to their ends. */
  lemma CutLater(sections: Sections, cursor: Option<Cursor>, at: Cursor, j: nat, included: seq<Item>, c: Coverage)
    requires j < at.section < |sections| && SectionDone(sections, cursor, None, j, included, c)
    ensures SectionDone(sections, cursor, Some(at), j, included, c)
  {
  }

  /** One section: skipped, delivered earlier, past the cut, or delivered from here. */
  method AssembleSection(sections: Sections, i: nat, cursor: Option<Cursor>, earlier: bool, budget: nat, spent: nat,
                         ghost next: Option<Cursor>, truncated: bool)
    returns (taken: seq<Item>, entry: Coverage, total: nat, cut: bool, ghost next': Option<Cursor>)
    requires i < |sections| && spent <= budget
    requires truncated <==> next.Some?
    requires next.Some? ==> next.value.section < i && !earlier && (cursor.Some? ==> cursor.value.section < i)
    requires earlier <==> cursor.Some? && i < cursor.value.section
    ensures SectionDone(sections, cursor, next', i, taken, entry)
    ensures total == spent + Cost(taken) <= budget
    ensures cut <==> next'.Some?
    ensures next.Some? ==> next' == next && taken == []
    ensures next.None? && next'.Some? ==>
      next'.value.section == i && !earlier && StopsAt(sections, next'.value, total, budget)
  {
    var s := sections[i];
    taken, total, cut, next' := [], spent, truncated, next;
    if !s.requested {
      entry := EmptyCoverage(s, NotRequested, false);
    } else if earlier {
      entry := EmptyCoverage(s, ByCursor, false);
    } else if truncated {
      entry := EmptyCoverage(s, if |s.items| == 0 then (if s.hidden == 0 then NoReason else Suppressed) else ByBudget,
                             |s.items| == 0 && s.hidden == 0);
    } else {
      var start := if cursor.Some? && i == cursor.value.section then Min(cursor.value.offset, |s.items|) else 0;
      taken, entry, total, cut := DeliverSection(s, i, start, spent, budget);
      if cut {
        next' := Some(Cursor(i, start + |taken|));
      }
    }
  }

  /** One requested or skipped section after another; once the budget cuts, nothing later is delivered. */
  method AssemblePage(sections: Sections, cursor: Option<Cursor>, budget: nat) returns (page: Page)
    requires Names(sections, cursor)
    ensures IsPage(sections, cursor, budget, page, Continuation(page.coverage))
  {
    hide SectionDone, StopsAt, TotalCost, Cost, Continuation;
    var included: seq<seq<Item>>, coverage: seq<Coverage> := [], [];
    var total, truncated, beforeCursor := 0, false, cursor.Some?;
    ghost var next: Option<Cursor> := None;
    assert TotalCost(included) == 0 by { NothingCosts(); }
    for i := 0 to |sections|
      invariant |included| == |coverage| == i
      invariant truncated <==> next.Some?
      invariant beforeCursor <==> cursor.Some? && i <= cursor.value.section
      invariant next.Some? ==> next.value.section < i && !beforeCursor && StopsAt(sections, next.value, total, budget)
      invariant forall j :: 0 <= j < i ==> SectionDone(sections, cursor, next, j, included[j], coverage[j])
      invariant total == TotalCost(included) <= budget
    {
      if beforeCursor && i == cursor.value.section {
        beforeCursor := false;
      }
      ghost var was, spent := next, total;
      var taken, entry;
      taken, entry, total, truncated, next :=
        AssembleSection(sections, i, cursor, beforeCursor, budget, total, next, truncated);
      if was.None? && next.Some? {
        forall j | 0 <= j < i ensures SectionDone(sections, cursor, next, j, included[j], coverage[j]) {
          CutLater(sections, cursor, next.value, j, included[j], coverage[j]);
        }
      }
      NothingCosts();
      TotalSnoc(included, taken);
      included := included + [taken];
      coverage := coverage + [entry];
    }
    page := Page(included, coverage, total);
    PageContinues(sections, cursor, budget, page, next);
  }

  lemma NothingCosts()
    ensures Cost([]) == 0 && TotalCost([]) == 0
  {
  }

  // ----- Following the cursors

  /**
   The pages a client sees that starts without a cursor and follows each page's cursor in turn:
   page k is for cursors[k] and continues at cursors[k + 1].
   */
  ghost predicate Follows(sections: Sections, budget: nat, pages: seq<Page>, cursors: seq<Option<Cursor>>) {
    && |cursors| == |pages| + 1 && cursors[0].None?
    && (forall k :: 0 <= k < |pages| ==> IsPage(sections, cursors[k], budget, pages[k], cursors[k + 1]))
    && (forall k :: 1 <= k < |pages| ==> cursors[k].Some?)
  }

  /** What the pages delivered of section i, in page order. */
  ghost function Delivered(pages: seq<Page>, i: nat): seq<Item>
    requires forall k :: 0 <= k < |pages| ==> i < |pages[k].included|
  {
    if pages == [] then [] else Delivered(pages[..|pages| - 1], i) + pages[|pages| - 1].included[i]
  }

  lemma {:induction false} DeliveredStretch(sections: Sections, budget: nat, pages: seq<Page>,
                                            cursors: seq<Option<Cursor>>, i: nat)
    requires Follows(sections, budget, pages, cursors) && pages != [] && i < |sections| && sections[i].requested
    ensures forall k :: 0 <= k < |pages| ==> i < |pages[k].included|
    ensures After(sections, cursors[|pages|], i) <= |sections[i].items|
    ensures Delivered(pages, i) == sections[i].items[..After(sections, cursors[|pages|], i)]
    decreases |pages|
  {
    hide Follows;
    LastStretch(sections, budget, pages, cursors, i);
    var n := |pages|;
    if n > 1 {
      FollowsFront(sections, budget, pages, cursors);
      DeliveredStretch(sections, budget, pages[..n - 1], cursors[..n], i);
      Consecutive(sections[i].items, Before(sections, cursors[n - 1], i), After(sections, cursors[n], i));
    } else {
      assert Delivered(pages[..0], i) == [];
      Consecutive(sections[i].items, 0, After(sections, cursors[n], i));
    }
  }

  lemma Consecutive(items: seq<Item>, a: nat, b: nat)
    requires a <= b <= |items|
    ensures items[..a] + items[a..b] == items[..b]
  {
  }

  /** The last page's stretch of section i begins where the pages before it ended. */
  lemma LastStretch(sections: Sections, budget: nat, pages: seq<Page>, cursors: seq<Option<Cursor>>, i: nat)
    requires Follows(sections, budget, pages, cursors) && pages != [] && i < |sections| && sections[i].requested
    ensures |cursors| == |pages| + 1
    ensures forall k :: 0 <= k < |pages| ==> |pages[k].included| == |sections|
    ensures var n := |pages|;
      && Before(sections, cursors[n - 1], i) <= After(sections, cursors[n], i) <= |sections[i].items|
      && pages[n - 1].included[i] ==
        sections[i].items[Before(sections, cursors[n - 1], i)..After(sections, cursors[n], i)]
      && (n > 1 ==> After(sections, cursors[n - 1], i) == Before(sections, cursors[n - 1], i))
      && (n == 1 ==> Before(sections, cursors[n - 1], i) == 0)
  {
    hide Closed, StopsAt, TotalCost;
    var n := |pages|;
    var last := pages[n - 1];
    forall k | 0 <= k < n ensures |pages[k].included| == |sections| {
      assert IsPage(sections, cursors[k], budget, pages[k], cursors[k + 1]);
    }
    assert IsPage(sections, cursors[n - 1], budget, last, cursors[n]);
    assert SectionDone(sections, cursors[n - 1], cursors[n], i, last.included[i], last.coverage[i]);
  }

  lemma FollowsFront(sections: Sections, budget: nat, pages: seq<Page>, cursors: seq<Option<Cursor>>)
    requires Follows(sections, budget, pages, cursors) && pages != []
    ensures Follows(sections, budget, pages[..|pages| - 1], cursors[..|pages|])
  {
    hide IsPage;
    var front, fore := pages[..|pages| - 1], cursors[..|pages|];
    forall k | 0 <= k < |front| ensures IsPage(sections, fore[k], budget, front[k], fore[k + 1]) {
      assert IsPage(sections, cursors[k], budget, pages[k], cursors[k + 1]);
    }
  }

  /** Following the cursors to the end delivers each requested section's items exactly once and in order. */
  lemma EverythingOnce(sections: Sections, budget: nat, pages: seq<Page>, cursors: seq<Option<Cursor>>, i: nat)
    requires Follows(sections, budget, pages, cursors) && pages != [] && cursors[|pages|].None?
    requires i < |sections| && sections[i].requested
    ensures forall k :: 0 <= k < |pages| ==> i < |pages[k].included|
    ensures Delivered(pages, i) == sections[i].items
  {
    DeliveredStretch(sections, budget, pages, cursors, i);
  }

  // ----- Whether the end is reached

  /** Every item a page could deliver fits a page of its own. */
  ghost predicate AllFit(sections: Sections, budget: nat) {
    forall i, o :: 0 <= i < |sections| && sections[i].requested && 0 <= o < |sections[i].items| ==>
      sections[i].items[o].cost <= budget
  }

  lemma {:induction false} CostOfMember(items: seq<Item>, o: nat)
    requires o < |items|
    ensures items[o].cost <= Cost(items)
  {
    if o < |items| - 1 {
      CostOfMember(items[..|items| - 1], o);
    }
  }

  lemma {:induction false} TotalOfMember(included: seq<seq<Item>>, i: nat)
    requires i < |included|
    ensures Cost(included[i]) <= TotalCost(included)
  {
    if i < |included| - 1 {
      TotalOfMember(included[..|included| - 1], i);
    }
  }

  lemma {:induction false} NothingTaken(included: seq<seq<Item>>)
    requires forall i :: 0 <= i < |included| ==> included[i] == []
    ensures TotalCost(included) == 0
  {
    if included != [] {
      NothingTaken(included[..|included| - 1]);
    }
  }

  /** How many of the first n sections' requested items are still to come at this cursor. */
  ghost function StillToCome(sections: Sections, cursor: Option<Cursor>, n: nat): nat
    requires n <= |sections|
  {
    if n == 0 then 0
    else
      StillToCome(sections, cursor, n - 1)
      + if sections[n - 1].requested then |sections[n - 1].items| - Before(sections, cursor, n - 1) else 0
  }

  lemma {:induction false} LessToCome(sections: Sections, cursor: Option<Cursor>, at: Cursor, n: nat)
    requires n <= |sections|
    requires forall i :: 0 <= i < n && sections[i].requested ==>
      Before(sections, cursor, i) <= Before(sections, Some(at), i)
    ensures StillToCome(sections, Some(at), n) <= StillToCome(sections, cursor, n)
    ensures (exists i ::
               0 <= i < n && sections[i].requested && Before(sections, cursor, i) < Before(sections, Some(at), i)) ==>
      StillToCome(sections, Some(at), n) < StillToCome(sections, cursor, n)
  {
    hide Before;
    if n > 0 {
      LessToCome(sections, cursor, at, n - 1);
    }
  }

  /** When every item fits, a page that has a continuation has delivered something. */
  lemma PageProgresses(sections: Sections, cursor: Option<Cursor>, budget: nat, page: Page, at: Cursor)
    requires AllFit(sections, budget) && IsPage(sections, cursor, budget, page, Some(at))
    ensures StillToCome(sections, Some(at), |sections|) < StillToCome(sections, cursor, |sections|)
  {
    hide Closed, TotalCost;
    if forall i :: 0 <= i < |page.included| ==> page.included[i] == [] {
      NothingTaken(page.included);
      assert false;
    }
    var i :| 0 <= i < |page.included| && page.included[i] != [];
    assert SectionDone(sections, cursor, Some(at), i, page.included[i], page.coverage[i]);
    assert |page.included[i]| == After(sections, Some(at), i) - Before(sections, cursor, i);
    forall j | 0 <= j < |sections| && sections[j].requested
      ensures Before(sections, cursor, j) <= Before(sections, Some(at), j)
    {
      assert SectionDone(sections, cursor, Some(at), j, page.included[j], page.coverage[j]);
    }
    LessToCome(sections, cursor, at, |sections|);
  }

  lemma {:induction false} PagesShrink(sections: Sections, budget: nat, pages: seq<Page>, cursors: seq<Option<Cursor>>,
                                       k: nat)
    requires AllFit(sections, budget) && Follows(sections, budget, pages, cursors) && k < |pages|
    ensures StillToCome(sections, cursors[k], |sections|) + k <= StillToCome(sections, None, |sections|)
  {
    hide IsPage, StillToCome, AllFit;
    if k > 0 {
      PagesShrink(sections, budget, pages, cursors, k - 1);
      assert IsPage(sections, cursors[k - 1], budget, pages[k - 1], cursors[k]);
      PageProgresses(sections, cursors[k - 1], budget, pages[k - 1], cursors[k].value);
    }
  }

  /** When every item fits, there are at most as many continuations as items: following them ends. */
  lemma FollowingEnds(sections: Sections, budget: nat, pages: seq<Page>, cursors: seq<Option<Cursor>>)
    requires AllFit(sections, budget) && Follows(sections, budget, pages, cursors)
    ensures |pages| <= StillToCome(sections, None, |sections|) + 1
  {
    if pages != [] {
      PagesShrink(sections, budget, pages, cursors, |pages| - 1);
    }
  }

  /** And only then: whoever has seen the last page has seen no item that does not fit. */
  lemma EndsOnlyIfAllFit(sections: Sections, budget: nat, pages: seq<Page>, cursors: seq<Option<Cursor>>)
    requires Follows(sections, budget, pages, cursors) && pages != [] && cursors[|pages|].None?
    ensures AllFit(sections, budget)
  {
    forall i: nat, o: nat | i < |sections| && sections[i].requested && o < |sections[i].items|
      ensures sections[i].items[o].cost <= budget
    {
      EverythingOnce(sections, budget, pages, cursors, i);
      var k, m := WhereDelivered(pages, i, o);
      assert IsPage(sections, cursors[k], budget, pages[k], cursors[k + 1]);
      CostOfMember(pages[k].included[i], m);
      TotalOfMember(pages[k].included, i);
    }
  }

  lemma {:induction false} WhereDelivered(pages: seq<Page>, i: nat, o: nat) returns (k: nat, m: nat)
    requires forall k :: 0 <= k < |pages| ==> i < |pages[k].included|
    requires o < |Delivered(pages, i)|
    ensures k < |pages| && m < |pages[k].included[i]| && pages[k].included[i][m] == Delivered(pages, i)[o]
  {
    var front := pages[..|pages| - 1];
    if o < |Delivered(front, i)| {
      k, m := WhereDelivered(front, i, o);
    } else {
      k, m := |pages| - 1, o - |Delivered(front, i)|;
    }
  }

  /** An item that does not fit is never passed: its page delivers nothing and continues where it began. */
  lemma StuckForEver(sections: Sections, budget: nat, page: Page, at: Cursor, next: Option<Cursor>)
    requires at.section < |sections| && sections[at.section].requested && at.offset < |sections[at.section].items|
    requires sections[at.section].items[at.offset].cost > budget
    requires IsPage(sections, Some(at), budget, page, next)
    ensures next == Some(at)
    ensures forall i :: 0 <= i < |page.included| ==> page.included[i] == []
  {
    var s := at.section;
    assert SectionDone(sections, Some(at), next, s, page.included[s], page.coverage[s]);
    if After(sections, next, s) > at.offset {
      CostOfMember(page.included[s], 0);
      TotalOfMember(page.included, s);
      assert false;
    }
    assert next.Some?;
    assert SectionDone(sections, Some(at), next, next.value.section, page.included[next.value.section],
                       page.coverage[next.value.section]);
    forall i | 0 <= i < |page.included| ensures page.included[i] == [] {
      assert SectionDone(sections, Some(at), next, i, page.included[i], page.coverage[i]);
    }
  }

  // ----- What the totals total

  lemma {:induction false} CostAdds(a: seq<Item>, b: seq<Item>)
    ensures Cost(a + b) == Cost(a) + Cost(b)
    ensures forall item :: Cost([item]) == item.cost
  {
    forall item: Item ensures Cost([item]) == item.cost {
      assert [item][..0] == [];
    }
    if b == [] {
      assert a + b == a;
    } else {
      CostAdds(a, b[..|b| - 1]);
      assert (a + b)[..|a + b| - 1] == a + b[..|b| - 1];
    }
  }

  ghost function Flat(included: seq<seq<Item>>): seq<Item> {
    if included == [] then [] else Flat(included[..|included| - 1]) + included[|included| - 1]
  }

  /** A page's total is what its items cost together, section by section. */
  lemma {:induction false} TotalIsCost(included: seq<seq<Item>>)
    ensures TotalCost(included) == Cost(Flat(included))
  {
    if included != [] {
      TotalIsCost(included[..|included| - 1]);
      CostAdds(Flat(included[..|included| - 1]), included[|included| - 1]);
    }
  }
}
