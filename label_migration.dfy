/** `migrate_card_labels` of migrators.py with its run-wide `label_cache`.
    Labels of a card are visited last to first; each one is looked up in
    the cache under the key `board_id + "_" + stripped name + "_" + Planka
    colour`; a hit reuses the cached label id, a miss asks Planka to create
    the label and caches the new id only when creation succeeded. Every
    resolved id is then bound to the card; a failed binding is only logged.
    The Planka server is a pair of oracles: `create` answers the label
    creation request and `bind` the binding request of the `k`-th label
    visited, so two identical requests may be answered differently. */
module LabelMigration {
  import opened Wrappers
  import opened Text
  import opened Sequences
  import LabelColors
  import PlankaApi

  /** A Trello label: its name (a missing name reads as "") and its colour
      (`None` for a null colour). */
  datatype Label = Label(name: string, color: Option<string>)

  /** A label as the migrator uses it: the stripped name and the Planka
      colour. */
  datatype ResolvedLabel = ResolvedLabel(name: string, color: string)

  function Resolve(trelloLabel: Label): ResolvedLabel {
    ResolvedLabel(Strip(trelloLabel.name), LabelColors.PlankaLabelColor(trelloLabel.color))
  }

  function ResolveAll(labels: seq<Label>): (r: seq<ResolvedLabel>)
    ensures |r| == |labels| && forall i :: 0 <= i < |labels| ==> r[i] == Resolve(labels[i])
  {
    seq(|labels|, i requires 0 <= i < |labels| => Resolve(labels[i]))
  }

  /** A request the label migrator made, with the outcome it acted on. */
  datatype LabelCall =
    | CreateLabel(boardId: string, name: string, color: string, created: Option<string>)
    | BindLabel(cardId: string, labelId: string, bound: bool)

  /** Planka's answer to the `k`-th `create_label(board_id, name, color)`
      call, that is to the request `PlankaApi.CreateLabelRequest` builds. */
  type CreateOracle = (nat, string, string, string) -> PlankaApi.Response
  /** Planka's answer to the `k`-th `add_label_to_card(card_id, label_id)`
      call, that is to the request `PlankaApi.AddLabelToCardRequest` builds. */
  type BindOracle = (nat, string, string) -> PlankaApi.Response

  /** The cache state and the requests made, after some labels. */
  datatype LabelRunState = LabelRunState(cache: map<string, string>, calls: seq<LabelCall>)

  /** The cache key: a plain concatenation, not a tuple. */
  function CacheKey(boardId: string, name: string, color: string): (key: string)
    ensures |key| == |boardId| + |name| + |color| + 2
  {
    boardId + "_" + name + "_" + color
  }

  /** The key a Trello label is cached under on a board. */
  function LabelKey(boardId: string, resolved: ResolvedLabel): string {
    CacheKey(boardId, resolved.name, resolved.color)
  }

  /** The key of a creation request. */
  function CallKey(call: LabelCall): string
    requires call.CreateLabel?
  {
    CacheKey(call.boardId, call.name, call.color)
  }

  /** Whether binding `labelId` to the card succeeded: `add_label_to_card`
      returned an item. */
  predicate Bound(k: nat, cardId: string, labelId: string, bind: BindOracle) {
    PlankaApi.ItemOnSuccess(bind(k, cardId, labelId)).Some?
  }

  /** The outcome of creating a label: the new id, or None on failure. */
  function Created(k: nat, boardId: string, name: string, color: string, create: CreateOracle): Option<string> {
    PlankaApi.ItemOnSuccess(create(k, boardId, name, color))
  }

  /** One label, the `k`-th visited. */
  function LabelStep(cache: map<string, string>, boardId: string, cardId: string, resolved: ResolvedLabel,
                     k: nat, create: CreateOracle, bind: BindOracle): LabelRunState
  {
    var name := resolved.name;
    var color := resolved.color;
    var key := CacheKey(boardId, name, color);
    if key in cache then
      LabelRunState(cache, [BindLabel(cardId, cache[key], Bound(k, cardId, cache[key], bind))])
    else
      match Created(k, boardId, name, color, create)
      case None => LabelRunState(cache, [CreateLabel(boardId, name, color, None)])
      case Some(id) =>
        LabelRunState(cache[key := id],
          [CreateLabel(boardId, name, color, Some(id)), BindLabel(cardId, id, Bound(k, cardId, id, bind))])
  }

  /** The labels of `order`, visited first to last, starting from `cache`. */
  function LabelRun(cache: map<string, string>, boardId: string, cardId: string, order: seq<ResolvedLabel>,
                    create: CreateOracle, bind: BindOracle): LabelRunState
  {
    if order == [] then LabelRunState(cache, [])
    else
      var before := LabelRun(cache, boardId, cardId, order[..|order| - 1], create, bind);
      var step := LabelStep(before.cache, boardId, cardId, order[|order| - 1], |order| - 1, create, bind);
      LabelRunState(step.cache, before.calls + step.calls)
  }

  /** The decisions for one label. On a cache hit, no label is created and
      the cached id is bound. On a miss, the label is created under its
      stripped name and mapped colour; if that fails the cache is unchanged
      and nothing is bound, otherwise the cache gains exactly the new key
      and the new id is bound. */
  lemma LabelStepCases(cache: map<string, string>, boardId: string, cardId: string, resolved: ResolvedLabel,
                       k: nat, create: CreateOracle, bind: BindOracle)
    ensures var r := LabelStep(cache, boardId, cardId, resolved, k, create, bind);
      var key := LabelKey(boardId, resolved);
      var name := resolved.name;
      var color := resolved.color;
      var created := Created(k, boardId, name, color, create);
      && (key in cache ==>
            r.cache == cache && r.calls == [BindLabel(cardId, cache[key], Bound(k, cardId, cache[key], bind))])
      && (key !in cache && created.None? ==>
            r.cache == cache && r.calls == [CreateLabel(boardId, name, color, None)])
      && (key !in cache && created.Some? ==>
            && r.cache == cache[key := created.value]
            && r.calls == [CreateLabel(boardId, name, color, created),
                           BindLabel(cardId, created.value, Bound(k, cardId, created.value, bind))])
  {
  }

  /** What one step does to the cache and which creation it may request:
      old entries are kept, at most one creation is requested, first and
      for a key not yet cached, and a successful one is cached. */
  lemma StepFacts(cache: map<string, string>, boardId: string, cardId: string, resolved: ResolvedLabel,
                  k: nat, create: CreateOracle, bind: BindOracle)
    ensures var step := LabelStep(cache, boardId, cardId, resolved, k, create, bind);
      && (forall key :: key in cache ==> key in step.cache && step.cache[key] == cache[key])
      && (forall j :: 0 <= j < |step.calls| && step.calls[j].CreateLabel? ==>
            && j == 0
            && CallKey(step.calls[j]) !in cache
            && (step.calls[j].created.Some? ==>
                  CallKey(step.calls[j]) in step.cache
                  && step.cache[CallKey(step.calls[j])] == step.calls[j].created.value))
  {
    LabelStepCases(cache, boardId, cardId, resolved, k, create, bind);
  }

  /** The calls of a run are those of the shorter run followed by those of
      its last step. */
  lemma RunCallsSplit(cache: map<string, string>, boardId: string, cardId: string,
                      order: seq<ResolvedLabel>, create: CreateOracle, bind: BindOracle, i: int)
    requires order != []
    requires 0 <= i < |LabelRun(cache, boardId, cardId, order, create, bind).calls|
    ensures var before := LabelRun(cache, boardId, cardId, order[..|order| - 1], create, bind);
      var step := LabelStep(before.cache, boardId, cardId, order[|order| - 1], |order| - 1, create, bind);
      var run := LabelRun(cache, boardId, cardId, order, create, bind);
      && run.cache == step.cache
      && run.calls[i] == if i < |before.calls| then before.calls[i] else step.calls[i - |before.calls|]
  {
  }

  /** The cache only grows: every entry present before a run is still
      there afterwards with the same id. */
  lemma {:induction false} RunKeepsEntries(cache: map<string, string>, boardId: string, cardId: string,
                                           order: seq<ResolvedLabel>, create: CreateOracle, bind: BindOracle)
    ensures var run := LabelRun(cache, boardId, cardId, order, create, bind);
      forall key :: key in cache ==> key in run.cache && run.cache[key] == cache[key]
    decreases |order|
  {
    if order != [] {
      var before := LabelRun(cache, boardId, cardId, order[..|order| - 1], create, bind);
      RunKeepsEntries(cache, boardId, cardId, order[..|order| - 1], create, bind);
      StepFacts(before.cache, boardId, cardId, order[|order| - 1], |order| - 1, create, bind);
    }
  }

  /** Every successful creation of a run is in the cache afterwards, under
      its key and with the id Planka returned. */
  lemma {:induction false} CreatedLabelsAreCached(cache: map<string, string>, boardId: string, cardId: string,
                                                  order: seq<ResolvedLabel>, create: CreateOracle, bind: BindOracle)
    ensures var run := LabelRun(cache, boardId, cardId, order, create, bind);
      forall i :: 0 <= i < |run.calls| && run.calls[i].CreateLabel? && run.calls[i].created.Some? ==>
        CallKey(run.calls[i]) in run.cache && run.cache[CallKey(run.calls[i])] == run.calls[i].created.value
    decreases |order|
  {
    if order != [] {
      var prefix := order[..|order| - 1];
      var before := LabelRun(cache, boardId, cardId, prefix, create, bind);
      var run := LabelRun(cache, boardId, cardId, order, create, bind);
      CreatedLabelsAreCached(cache, boardId, cardId, prefix, create, bind);
      StepFacts(before.cache, boardId, cardId, order[|order| - 1], |order| - 1, create, bind);
      forall i | 0 <= i < |run.calls| && run.calls[i].CreateLabel? && run.calls[i].created.Some?
        ensures CallKey(run.calls[i]) in run.cache && run.cache[CallKey(run.calls[i])] == run.calls[i].created.value
      {
        RunCallsSplit(cache, boardId, cardId, order, create, bind, i);
      }
    }
  }

  /** A run never asks Planka to create a label whose key was already
      cached, and it creates each key at most once: of two creation
      requests for the same key, the earlier one failed. Visiting the same
      (board, name, colour) label twice therefore yields at most one
      Planka label. */
  lemma {:induction false} CreatesAtMostOncePerKey(cache: map<string, string>, boardId: string, cardId: string,
                                                   order: seq<ResolvedLabel>, create: CreateOracle, bind: BindOracle)
    ensures var run := LabelRun(cache, boardId, cardId, order, create, bind);
      && (forall i :: 0 <= i < |run.calls| && run.calls[i].CreateLabel? ==> CallKey(run.calls[i]) !in cache)
      && (forall i, j ::
            (0 <= i < j < |run.calls| && run.calls[i].CreateLabel? && run.calls[j].CreateLabel?
             && CallKey(run.calls[i]) == CallKey(run.calls[j])) ==> run.calls[i].created.None?)
    decreases |order|
  {
    if order != [] {
      var prefix := order[..|order| - 1];
      var before := LabelRun(cache, boardId, cardId, prefix, create, bind);
      var step := LabelStep(before.cache, boardId, cardId, order[|order| - 1], |order| - 1, create, bind);
      var run := LabelRun(cache, boardId, cardId, order, create, bind);
      CreatesAtMostOncePerKey(cache, boardId, cardId, prefix, create, bind);
      CreatedLabelsAreCached(cache, boardId, cardId, prefix, create, bind);
      RunKeepsEntries(cache, boardId, cardId, prefix, create, bind);
      StepFacts(before.cache, boardId, cardId, order[|order| - 1], |order| - 1, create, bind);
      forall i | 0 <= i < |run.calls| && run.calls[i].CreateLabel?
        ensures CallKey(run.calls[i]) !in cache
      {
        RunCallsSplit(cache, boardId, cardId, order, create, bind, i);
      }
      forall i, j | 0 <= i < j < |run.calls| && run.calls[i].CreateLabel? && run.calls[j].CreateLabel?
            && CallKey(run.calls[i]) == CallKey(run.calls[j])
        ensures run.calls[i].created.None?
      {
        RunCallsSplit(cache, boardId, cardId, order, create, bind, i);
        RunCallsSplit(cache, boardId, cardId, order, create, bind, j);
      }
    }
  }

  /** A failed binding changes nothing else: whatever Planka answers to the
      binding requests, the cache and every creation request are the same,
      and the same labels are bound in the same order. */
  lemma {:induction false} BindAnswersChangeNothingElse(cache: map<string, string>, boardId: string, cardId: string,
                                                        order: seq<ResolvedLabel>, create: CreateOracle,
                                                        bind1: BindOracle, bind2: BindOracle)
    ensures var run1 := LabelRun(cache, boardId, cardId, order, create, bind1);
      var run2 := LabelRun(cache, boardId, cardId, order, create, bind2);
      && run1.cache == run2.cache
      && |run1.calls| == |run2.calls|
      && forall i :: 0 <= i < |run1.calls| ==>
           if run1.calls[i].CreateLabel? then run2.calls[i] == run1.calls[i]
           else run2.calls[i].BindLabel? && run2.calls[i].labelId == run1.calls[i].labelId
    decreases |order|
  {
    if order != [] {
      var prefix := order[..|order| - 1];
      var k := |order| - 1;
      var before1 := LabelRun(cache, boardId, cardId, prefix, create, bind1);
      var run1 := LabelRun(cache, boardId, cardId, order, create, bind1);
      BindAnswersChangeNothingElse(cache, boardId, cardId, prefix, create, bind1, bind2);
      LabelStepCases(before1.cache, boardId, cardId, order[k], k, create, bind1);
      LabelStepCases(before1.cache, boardId, cardId, order[k], k, create, bind2);
      forall i | 0 <= i < |run1.calls|
        ensures var run2 := LabelRun(cache, boardId, cardId, order, create, bind2);
          if run1.calls[i].CreateLabel? then run2.calls[i] == run1.calls[i]
          else run2.calls[i].BindLabel? && run2.calls[i].labelId == run1.calls[i].labelId
      {
        RunCallsSplit(cache, boardId, cardId, order, create, bind1, i);
        RunCallsSplit(cache, boardId, cardId, order, create, bind2, i);
      }
    }
  }

  /** The same label visited twice with an empty cache: if Planka creates
      it the first time, exactly one label is created and both bindings use
      its id. */
  lemma SameLabelTwice(boardId: string, cardId: string, resolved: ResolvedLabel,
                       create: CreateOracle, bind: BindOracle, id: string)
    requires Created(0, boardId, resolved.name, resolved.color, create) == Some(id)
    ensures var run := LabelRun(map[], boardId, cardId, [resolved, resolved], create, bind);
      && run.cache == map[LabelKey(boardId, resolved) := id]
      && run.calls == [CreateLabel(boardId, resolved.name, resolved.color, Some(id)),
                       BindLabel(cardId, id, Bound(0, cardId, id, bind)),
                       BindLabel(cardId, id, Bound(1, cardId, id, bind))]
  {
    var order := [resolved, resolved];
    var key := LabelKey(boardId, resolved);
    var first := LabelRun(map[], boardId, cardId, order[..1], create, bind);
    assert first == LabelRunState(map[key := id], [CreateLabel(boardId, resolved.name, resolved.color, Some(id)),
                                                  BindLabel(cardId, id, Bound(0, cardId, id, bind))]) by {
      assert order[..1] == [resolved] && order[..1][..0] == [];
      assert LabelRun(map[], boardId, cardId, order[..1][..0], create, bind) == LabelRunState(map[], []);
      LabelStepCases(map[], boardId, cardId, resolved, 0, create, bind);
    }
    assert LabelStep(first.cache, boardId, cardId, resolved, 1, create, bind)
        == LabelRunState(first.cache, [BindLabel(cardId, id, Bound(1, cardId, id, bind))]);
  }

  /** Two unnamed green labels on one card: both resolve to "tank-green"
      under one key, so if Planka creates the first, exactly one label is
      created and both bindings use its id. */
  lemma TwoUnnamedGreenLabels(boardId: string, cardId: string, create: CreateOracle, bind: BindOracle, id: string)
    requires Created(0, boardId, "", "tank-green", create) == Some(id)
    ensures var green := Label("", Some("green"));
      var run := LabelRun(map[], boardId, cardId, ResolveAll(Reversed([green, green])), create, bind);
      && run.cache == map[CacheKey(boardId, "", "tank-green") := id]
      && run.calls == [CreateLabel(boardId, "", "tank-green", Some(id)),
                       BindLabel(cardId, id, Bound(0, cardId, id, bind)),
                       BindLabel(cardId, id, Bound(1, cardId, id, bind))]
  {
    GreenPairResolves();
    SameLabelTwice(boardId, cardId, ResolvedLabel("", "tank-green"), create, bind, id);
  }

  /** Two unnamed green labels, visited in reverse, resolve alike. */
  lemma GreenPairResolves()
    ensures var green := Label("", Some("green"));
      ResolveAll(Reversed([green, green])) == [ResolvedLabel("", "tank-green"), ResolvedLabel("", "tank-green")]
  {
    var green := Label("", Some("green"));
    var pair := Reversed([green, green]);
    assert pair == [green, green] by {
      assert |pair| == 2 && pair[0] == green && pair[1] == green;
    }
    GreenResolves();
    var r := ResolveAll(pair);
    assert |r| == 2 && r[0] == Resolve(green) && r[1] == Resolve(green);
  }

  /** An unnamed green label resolves to an unnamed "tank-green" label. */
  lemma GreenResolves()
    ensures Resolve(Label("", Some("green"))) == ResolvedLabel("", "tank-green")
  {
    assert |Strip("")| <= 0;
  }

  /** In `prefix + "_" + suffix` with no underscore in `suffix`, the last
      underscore is the separator. */
  lemma LastUnderscoreIsSeparator(prefix: string, suffix: string)
    requires forall i :: 0 <= i < |suffix| ==> suffix[i] != '_'
    ensures LastIndexOf(prefix + "_" + suffix, '_') == |prefix|
  {
    LastIndexOfAppend(prefix + "_", suffix, '_');
    var head := prefix + "_";
    assert LastIndexOf(head, '_') == |prefix| by {
      assert head[|head| - 1] == '_';
    }
  }

  /** On one board the key determines the label: with colours from the
      palette (which have no underscore) the last underscore separates the
      colour, so equal keys mean equal names and colours. */
  lemma KeyDeterminesLabelOnBoard(boardId: string, name1: string, color1: string, name2: string, color2: string)
    requires color1 in LabelColors.PlankaPalette && color2 in LabelColors.PlankaPalette
    requires CacheKey(boardId, name1, color1) == CacheKey(boardId, name2, color2)
    ensures name1 == name2 && color1 == color2
  {
    LabelColors.PaletteHasNoUnderscore(color1);
    LabelColors.PaletteHasNoUnderscore(color2);
    var key := CacheKey(boardId, name1, color1);
    LastUnderscoreIsSeparator(boardId + "_" + name1, color1);
    LastUnderscoreIsSeparator(boardId + "_" + name2, color2);
    assert |name1| == |name2|;
    assert color1 == key[|key| - |color1|..] == color2;
    assert name1 == key[|boardId| + 1..|boardId| + 1 + |name1|] == name2;
  }

  /** Across boards the key is ambiguous when a board id contains an
      underscore: the concatenation cannot tell these two labels apart. */
  lemma KeyCollidesAcrossBoards()
    ensures CacheKey("a_b", "c", "tank-green") == CacheKey("a", "b_c", "tank-green")
  {
  }

  /** The colour list of the "Labels transfer" log line, as written: the
      colours joined with ", ", read with `l['color']`, which is evaluated
      before any label is migrated. `None` stands for the exception a null
      colour raises there, which ends the whole migration. */
  function TransferHeadingColors(labels: seq<Label>): (r: Option<string>)
    ensures r.None? <==> exists i :: 0 <= i < |labels| && labels[i].color.None?
    ensures labels != [] && r.Some? ==> |r.value| >= |labels[0].color.value|
    decreases |labels|
  {
    if labels == [] then Some("")
    else if labels[0].color.None? then None
    else if |labels| == 1 then Some(labels[0].color.value)
    else
      match TransferHeadingColors(labels[1..])
      case None =>
        assert exists i :: 0 <= i < |labels[1..]| && labels[1..][i].color.None?;
        var i :| 0 <= i < |labels[1..]| && labels[1..][i].color.None?;
        assert labels[i + 1].color.None?;
        None
      case Some(rest) => Some(labels[0].color.value + ", " + rest)
  }

  /** A card with one colourless label: the log line fails before the loop,
      although the loop itself gives that label the default colour. */
  lemma ColourlessLabelAbortsHeading(name: string)
    ensures TransferHeadingColors([Label(name, None)]).None?
    ensures Resolve(Label(name, None)).color == LabelColors.DefaultColor
  {
  }

  /** Without the heading, a colourless label on a fresh cache is created
      on the board under its stripped name with the default colour. */
  lemma ColourlessLabelCreatedWithDefault(boardId: string, cardId: string, name: string,
                                          create: CreateOracle, bind: BindOracle)
    ensures var run := LabelRun(map[], boardId, cardId, ResolveAll([Label(name, None)]), create, bind);
      && |run.calls| >= 1
      && run.calls[0].CreateLabel?
      && run.calls[0].boardId == boardId
      && run.calls[0].name == Strip(name)
      && run.calls[0].color == LabelColors.DefaultColor
  {
    var resolved := ResolvedLabel(Strip(name), LabelColors.DefaultColor);
    assert ResolveAll([Label(name, None)]) == [resolved];
    SingleLabelRun(map[], boardId, cardId, resolved, create, bind);
    LabelStepCases(map[], boardId, cardId, resolved, 0, create, bind);
  }

  /** A run over one label is that label's step. */
  lemma SingleLabelRun(cache: map<string, string>, boardId: string, cardId: string, resolved: ResolvedLabel,
                       create: CreateOracle, bind: BindOracle)
    ensures LabelRun(cache, boardId, cardId, [resolved], create, bind)
         == LabelStep(cache, boardId, cardId, resolved, 0, create, bind)
  {
    assert [resolved][..0] == [];
    var step := LabelStep(cache, boardId, cardId, resolved, 0, create, bind);
    assert [] + step.calls == step.calls;
  }

  /** A run one label longer is the shorter run followed by that label's
      step. */
  lemma RunUnfolds(cache: map<string, string>, boardId: string, cardId: string, order: seq<ResolvedLabel>,
                   k: nat, create: CreateOracle, bind: BindOracle)
    requires k < |order|
    ensures var before := LabelRun(cache, boardId, cardId, order[..k], create, bind);
      var step := LabelStep(before.cache, boardId, cardId, order[k], k, create, bind);
      LabelRun(cache, boardId, cardId, order[..k + 1], create, bind) == LabelRunState(step.cache, before.calls + step.calls)
  {
    assert order[..k + 1][..k] == order[..k];
  }

  /** The run-wide label cache (the module-global `label_cache`). */
  class LabelCache {
    var entries: map<string, string>

    constructor ()
      ensures entries == map[]
    {
      entries := map[];
    }

    /** The body of the loop of `migrate_card_labels` for the `k`-th label
        visited; a failed creation ends it early, as `continue` does. */
    method MigrateLabel(k: nat, boardId: string, cardId: string, resolved: ResolvedLabel,
                        create: CreateOracle, bind: BindOracle) returns (calls: seq<LabelCall>)
      modifies this
      ensures var step := LabelStep(old(entries), boardId, cardId, resolved, k, create, bind);
        entries == step.cache && calls == step.calls
    {
      var plankaColor := resolved.color;
      var labelName := resolved.name;
      var labelKey := CacheKey(boardId, labelName, plankaColor);
      var labelId: string;
      calls := [];
      if labelKey in entries {
        labelId := entries[labelKey];
      } else {
        var newLabel := Created(k, boardId, labelName, plankaColor, create);
        if newLabel.None? {
          calls := [CreateLabel(boardId, labelName, plankaColor, None)];
          return;
        }
        labelId := newLabel.value;
        entries := entries[labelKey := labelId];
        calls := [CreateLabel(boardId, labelName, plankaColor, Some(labelId))];
      }
      calls := calls + [BindLabel(cardId, labelId, Bound(k, cardId, labelId, bind))];
    }

    /** The loop of `migrate_card_labels` over labels already resolved, in
        the order they are visited. */
    method MigrateLabels(boardId: string, cardId: string, order: seq<ResolvedLabel>,
                         create: CreateOracle, bind: BindOracle) returns (calls: seq<LabelCall>)
      modifies this
      ensures var run := LabelRun(old(entries), boardId, cardId, order, create, bind);
        entries == run.cache && calls == run.calls
    {
      calls := [];
      ghost var start := entries;
      for k := 0 to |order|
        invariant var run := LabelRun(start, boardId, cardId, order[..k], create, bind);
          entries == run.cache && calls == run.calls
      {
        RunUnfolds(start, boardId, cardId, order, k, create, bind);
        var stepCalls := MigrateLabel(k, boardId, cardId, order[k], create, bind);
        calls := calls + stepCalls;
      }
      assert order[..|order|] == order;
    }

    /** `migrate_card_labels`: the cache afterwards and the requests made
        are those of visiting the card's labels in reverse. A card without
        labels changes nothing and makes no request. */
    method MigrateCardLabels(boardId: string, cardId: string, labels: seq<Label>,
                             create: CreateOracle, bind: BindOracle) returns (calls: seq<LabelCall>)
      modifies this
      ensures var run := LabelRun(old(entries), boardId, cardId, ResolveAll(Reversed(labels)), create, bind);
        entries == run.cache && calls == run.calls
      ensures labels == [] ==> entries == old(entries) && calls == []
    {
      calls := [];
      if labels == [] {
        return;
      }
      var order := ResolveAll(Reversed(labels));
      calls := MigrateLabels(boardId, cardId, order, create, bind);
    }
  }
}
