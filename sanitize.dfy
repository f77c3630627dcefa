/**
 * The two sanitisers of lib/utils.ts:
 *
 * - `sanitizeResponseMessages` (lib/utils.ts:129-166) cleans the core
 *   messages of a model response: an assistant's tool-call part survives only
 *   if some `tool` message answers it with a tool-result part, empty text
 *   parts go, and messages left with empty content go.
 * - `sanitizeUIMessages` (lib/utils.ts:168-199) cleans UI messages: in an
 *   assistant message an invocation survives if it is a `result` or if the
 *   same message holds a `result` with its toolCallId; messages left with no
 *   text and no invocations go.
 *
 * Each collects ids in a loop (a method proved against a function over
 * prefixes), then maps and filters (functions).
 */
module Sanitize {
  import opened Wrappers
  import opened Sequences
  import opened ChatTypes

  // ---------------------------------------------------------------------------
  // sanitizeResponseMessages: collecting the answered toolCallIds
  // ---------------------------------------------------------------------------

  /** The toolCallIds of the tool-result parts among `parts`, in order. */
  function PartResultIds<A, R>(parts: seq<Part<A, R>>): seq<string>
  {
    if parts == [] then []
    else
      var last := parts[|parts| - 1];
      PartResultIds(parts[..|parts| - 1]) + (if last.ToolResultPart? then [last.toolCallId] else [])
  }

  /** What the inner loop adds for one message: only a `tool` message with array content contributes. */
  function MessageResultIds<A, R>(m: CoreMessage<A, R>): seq<string>
  {
    if m.role == Tool && m.content.PartsContent? then PartResultIds(m.content.parts) else []
  }

  /** `toolResultIds` after the outer loop has seen `msgs`. */
  function ToolResultIds<A, R>(msgs: seq<CoreMessage<A, R>>): seq<string>
  {
    if msgs == [] then []
    else ToolResultIds(msgs[..|msgs| - 1]) + MessageResultIds(msgs[|msgs| - 1])
  }

  /** `m` is a `tool` message carrying a tool-result part for `id`. */
  ghost predicate CarriesResult<A, R>(m: CoreMessage<A, R>, id: string)
  {
    && m.role == Tool && m.content.PartsContent?
    && exists j :: 0 <= j < |m.content.parts| && m.content.parts[j].ToolResultPart? && m.content.parts[j].toolCallId == id
  }

  /** Some `tool` message of `msgs` carries a tool-result part for `id`. */
  ghost predicate HasToolResult<A, R>(msgs: seq<CoreMessage<A, R>>, id: string)
  {
    exists i :: 0 <= i < |msgs| && CarriesResult(msgs[i], id)
  }

  lemma {:induction false} PartResultIdsMeaning<A, R>(parts: seq<Part<A, R>>, id: string)
    ensures id in PartResultIds(parts) <==>
            exists j :: 0 <= j < |parts| && parts[j].ToolResultPart? && parts[j].toolCallId == id
  {
    if parts != [] {
      var n := |parts| - 1;
      PartResultIdsMeaning(parts[..n], id);
      if exists j :: 0 <= j < |parts| && parts[j].ToolResultPart? && parts[j].toolCallId == id {
        var j :| 0 <= j < |parts| && parts[j].ToolResultPart? && parts[j].toolCallId == id;
        if j < n { assert parts[..n][j] == parts[j]; }
      }
    }
  }

  /** The collected ids are exactly the ids answered by some `tool` message. */
  lemma {:induction false} ToolResultIdsMeaning<A, R>(msgs: seq<CoreMessage<A, R>>, id: string)
    ensures id in ToolResultIds(msgs) <==> HasToolResult(msgs, id)
  {
    if msgs != [] {
      var n := |msgs| - 1;
      var init, m := msgs[..n], msgs[n];
      ToolResultIdsMeaning(init, id);
      assert id in MessageResultIds(m) <==> CarriesResult(m, id) by {
        if m.role == Tool && m.content.PartsContent? {
          PartResultIdsMeaning(m.content.parts, id);
        }
      }
      assert HasToolResult(msgs, id) <==> HasToolResult(init, id) || CarriesResult(m, id) by {
        if HasToolResult(msgs, id) {
          var i :| 0 <= i < |msgs| && CarriesResult(msgs[i], id);
          if i < n { assert init[i] == msgs[i]; }
        }
        if HasToolResult(init, id) {
          var i :| 0 <= i < n && CarriesResult(init[i], id);
          assert init[i] == msgs[i];
        }
      }
    }
  }

  // ---------------------------------------------------------------------------
  // sanitizeResponseMessages: the map and the filter
  // ---------------------------------------------------------------------------

  /** The predicate of the part filter. */
  predicate KeepPart<A, R>(p: Part<A, R>, toolResultIds: seq<string>)
  {
    match p
    case ToolCallPart(id, _, _) => id in toolResultIds
    case TextPart(text) => |text| > 0
    case _ => true
  }

  function SanitizeParts<A, R>(parts: seq<Part<A, R>>, toolResultIds: seq<string>): seq<Part<A, R>>
  {
    Filter(parts, (p: Part<A, R>) => KeepPart(p, toolResultIds))
  }

  /**
   * The callback of `messages.map`: only an assistant message with array
   * content is rewritten, and then only its parts change, to an
   * order-preserving subsequence of them (which one: `ResponsePartsKept`).
   */
  function SanitizeContent<A, R>(m: CoreMessage<A, R>, toolResultIds: seq<string>): (r: CoreMessage<A, R>)
    ensures r.role == m.role
    ensures !(m.role == Assistant && m.content.PartsContent?) ==> r == m
    ensures m.role == Assistant && m.content.PartsContent? ==>
      && r.content.PartsContent?
      && IsSubsequence(r.content.parts, m.content.parts)
  {
    if m.role != Assistant then m
    else if !m.content.PartsContent? then m
    else
      FilterIsSubsequence(m.content.parts, (p: Part<A, R>) => KeepPart(p, toolResultIds));
      m.(content := PartsContent(SanitizeParts(m.content.parts, toolResultIds)))
  }

  /** `message.content.length`: characters of a string, elements of an array. */
  function ContentLength<A, R>(c: Content<A, R>): nat
  {
    match c
    case TextContent(s) => |s|
    case PartsContent(parts) => |parts|
    case OtherContent => 0
  }

  predicate HasContent<A, R>(m: CoreMessage<A, R>)
  {
    ContentLength(m.content) > 0
  }

  function DropEmpty<A, R>(msgs: seq<CoreMessage<A, R>>): seq<CoreMessage<A, R>>
  {
    Filter(msgs, (m: CoreMessage<A, R>) => HasContent(m))
  }

  /** Response messages are tool or assistant messages: their content is a string or an array. */
  ghost predicate WellTyped<A, R>(msgs: seq<CoreMessage<A, R>>)
  {
    forall i :: 0 <= i < |msgs| ==> !msgs[i].content.OtherContent?
  }

  /** The messages after the map stage. */
  ghost function SanitizedContents<A, R>(msgs: seq<CoreMessage<A, R>>): seq<CoreMessage<A, R>>
  {
    var ids := ToolResultIds(msgs);
    seq(|msgs|, i requires 0 <= i < |msgs| => SanitizeContent(msgs[i], ids))
  }

  ghost function SanitizeResponse<A, R>(msgs: seq<CoreMessage<A, R>>): seq<CoreMessage<A, R>>
    requires WellTyped(msgs)
  {
    DropEmpty(SanitizedContents(msgs))
  }

  /** The two loops that fill `toolResultIds`. */
  method CollectToolResultIds<A, R>(messages: seq<CoreMessage<A, R>>) returns (toolResultIds: seq<string>)
    ensures toolResultIds == ToolResultIds(messages)
  {
    toolResultIds := [];
    for i := 0 to |messages|
      invariant toolResultIds == ToolResultIds(messages[..i])
    {
      assert messages[..i + 1][..i] == messages[..i];
      var message := messages[i];
      if message.role == Tool && message.content.PartsContent? {
        var parts := message.content.parts;
        for j := 0 to |parts|
          invariant toolResultIds == ToolResultIds(messages[..i]) + PartResultIds(parts[..j])
        {
          assert parts[..j + 1][..j] == parts[..j];
          if parts[j].ToolResultPart? {
            toolResultIds := toolResultIds + [parts[j].toolCallId];
          }
        }
        assert parts[..|parts|] == parts;
      }
    }
    assert messages[..|messages|] == messages;
  }

  method SanitizeResponseMessages<A, R>(messages: seq<CoreMessage<A, R>>) returns (r: seq<CoreMessage<A, R>>)
    requires WellTyped(messages)
    ensures r == SanitizeResponse(messages)
  {
    var toolResultIds := CollectToolResultIds(messages);
    var messagesBySanitizedContent :=
      seq(|messages|, i requires 0 <= i < |messages| => SanitizeContent(messages[i], toolResultIds));
    r := DropEmpty(messagesBySanitizedContent);
  }

  // ---------------------------------------------------------------------------
  // sanitizeResponseMessages: what it promises
  // ---------------------------------------------------------------------------

  /** Which parts of an assistant message survive, stated against the input messages. */
  ghost predicate PartSurvives<A, R>(msgs: seq<CoreMessage<A, R>>, p: Part<A, R>)
  {
    match p
    case ToolCallPart(id, _, _) => HasToolResult(msgs, id)
    case TextPart(text) => |text| > 0
    case _ => true
  }

  /**
   * An assistant message with array content keeps, in order, exactly its
   * tool-call parts that some `tool` message answers, its non-empty text
   * parts and all its other parts.
   */
  lemma ResponsePartsKept<A, R>(msgs: seq<CoreMessage<A, R>>, i: nat)
    requires i < |msgs| && msgs[i].role == Assistant && msgs[i].content.PartsContent?
    ensures var out := SanitizedContents(msgs)[i];
      out.role == Assistant && out.content.PartsContent?
      && IsSubsequence(out.content.parts, msgs[i].content.parts)
      && (forall p :: p in out.content.parts <==> p in msgs[i].content.parts && PartSurvives(msgs, p))
      && forall p :: multiset(out.content.parts)[p] ==
           if PartSurvives(msgs, p) then multiset(msgs[i].content.parts)[p] else 0
  {
    var ids := ToolResultIds(msgs);
    var parts := msgs[i].content.parts;
    var keep := (p: Part<A, R>) => KeepPart(p, ids);
    FilterIsSubsequence(parts, keep);
    forall p ensures p in SanitizeParts(parts, ids) <==> p in parts && PartSurvives(msgs, p) {
      FilterMembership(parts, keep, p);
      if p.ToolCallPart? {
        ToolResultIdsMeaning(msgs, p.toolCallId);
      }
    }
    forall p ensures multiset(SanitizeParts(parts, ids))[p] == if PartSurvives(msgs, p) then multiset(parts)[p] else 0 {
      FilterCount(parts, keep, p);
      if p.ToolCallPart? {
        ToolResultIdsMeaning(msgs, p.toolCallId);
      }
    }
  }

  /** Messages other than assistant messages with array content pass the map stage unchanged. */
  lemma ResponsePassThrough<A, R>(msgs: seq<CoreMessage<A, R>>, i: nat)
    requires i < |msgs| && !(msgs[i].role == Assistant && msgs[i].content.PartsContent?)
    ensures SanitizedContents(msgs)[i] == msgs[i]
  {
  }

  /**
   * The output is an order-preserving subsequence of the part-filtered
   * messages, holds exactly those of them whose content is non-empty, and no
   * message in it has empty content.
   */
  lemma ResponseMessagesKept<A, R>(msgs: seq<CoreMessage<A, R>>)
    requires WellTyped(msgs)
    ensures IsSubsequence(SanitizeResponse(msgs), SanitizedContents(msgs))
    ensures forall m :: m in SanitizeResponse(msgs) <==> m in SanitizedContents(msgs) && ContentLength(m.content) > 0
    ensures forall k :: 0 <= k < |SanitizeResponse(msgs)| ==> ContentLength(SanitizeResponse(msgs)[k].content) > 0
    ensures forall m :: multiset(SanitizeResponse(msgs))[m] ==
                        if ContentLength(m.content) > 0 then multiset(SanitizedContents(msgs))[m] else 0
  {
    var keep := (m: CoreMessage<A, R>) => HasContent(m);
    FilterIsSubsequence(SanitizedContents(msgs), keep);
    forall m ensures m in SanitizeResponse(msgs) <==> m in SanitizedContents(msgs) && ContentLength(m.content) > 0 {
      FilterMembership(SanitizedContents(msgs), keep, m);
    }
    forall m ensures multiset(SanitizeResponse(msgs))[m] ==
                     if ContentLength(m.content) > 0 then multiset(SanitizedContents(msgs))[m] else 0 {
      FilterCount(SanitizedContents(msgs), keep, m);
    }
  }

  /** Sanitising parts twice with equivalent id lists is sanitising once. */
  lemma SanitizeContentTwice<A, R>(m: CoreMessage<A, R>, ids: seq<string>, ids': seq<string>)
    requires forall id :: id in ids <==> id in ids'
    ensures SanitizeContent(SanitizeContent(m, ids), ids') == SanitizeContent(m, ids)
  {
    if m.role == Assistant && m.content.PartsContent? {
      var parts := m.content.parts;
      FilterAgain(parts, (p: Part<A, R>) => KeepPart(p, ids), (p: Part<A, R>) => KeepPart(p, ids'));
    }
  }

  /** The answered ids of the output are those of the input: no answering `tool` message is dropped. */
  lemma ResponseKeepsAnswers<A, R>(msgs: seq<CoreMessage<A, R>>, id: string)
    requires WellTyped(msgs)
    ensures id in ToolResultIds(SanitizeResponse(msgs)) <==> id in ToolResultIds(msgs)
  {
    var mapped := SanitizedContents(msgs);
    var out := SanitizeResponse(msgs);
    var keep := (m: CoreMessage<A, R>) => HasContent(m);
    ToolResultIdsMeaning(msgs, id);
    ToolResultIdsMeaning(out, id);
    if HasToolResult(out, id) {
      var i :| 0 <= i < |out| && CarriesResult(out[i], id);
      FilterMembership(mapped, keep, out[i]);
      var q :| 0 <= q < |mapped| && mapped[q] == out[i];
      assert msgs[q] == out[i];
    }
    if HasToolResult(msgs, id) {
      var i :| 0 <= i < |msgs| && CarriesResult(msgs[i], id);
      assert mapped[i] == msgs[i];
      FilterMembership(mapped, keep, msgs[i]);
      var q :| 0 <= q < |out| && out[q] == msgs[i];
    }
  }

  /** `sanitizeResponseMessages` is idempotent. */
  lemma ResponseIdempotent<A, R>(msgs: seq<CoreMessage<A, R>>)
    requires WellTyped(msgs)
    ensures WellTyped(SanitizeResponse(msgs))
    ensures SanitizeResponse(SanitizeResponse(msgs)) == SanitizeResponse(msgs)
  {
    var ids := ToolResultIds(msgs);
    var mapped := SanitizedContents(msgs);
    var out := SanitizeResponse(msgs);
    var keep := (m: CoreMessage<A, R>) => HasContent(m);
    var ids' := ToolResultIds(out);
    forall id ensures id in ids <==> id in ids' {
      ResponseKeepsAnswers(msgs, id);
    }
    forall k | 0 <= k < |out| ensures SanitizeContent(out[k], ids') == out[k] && !out[k].content.OtherContent? {
      FilterMembership(mapped, keep, out[k]);
      var q :| 0 <= q < |mapped| && mapped[q] == out[k];
      SanitizeContentTwice(msgs[q], ids, ids');
    }
    var mapped' := SanitizedContents(out);
    assert mapped' == out;
    FilterKeepsAll(out, keep);
  }

  // ---------------------------------------------------------------------------
  // sanitizeUIMessages
  // ---------------------------------------------------------------------------

  /** `toolResultIds` after the loop has seen `invs`: the ids of the `result` invocations. */
  function ResultIds<A, R>(invs: seq<Invocation<A, R>>): seq<string>
  {
    if invs == [] then []
    else
      var last := invs[|invs| - 1];
      ResultIds(invs[..|invs| - 1]) + (if last.state == Result then [last.toolCallId] else [])
  }

  /** Some invocation of `invs` with the given id is a `result`. */
  ghost predicate HasResult<A, R>(invs: seq<Invocation<A, R>>, id: string)
  {
    exists k :: 0 <= k < |invs| && invs[k].state == Result && invs[k].toolCallId == id
  }

  lemma {:induction false} ResultIdsMeaning<A, R>(invs: seq<Invocation<A, R>>, id: string)
    ensures id in ResultIds(invs) <==> HasResult(invs, id)
  {
    if invs != [] {
      var n := |invs| - 1;
      ResultIdsMeaning(invs[..n], id);
      if HasResult(invs, id) {
        var k :| 0 <= k < |invs| && invs[k].state == Result && invs[k].toolCallId == id;
        if k < n { assert invs[..n][k] == invs[k]; }
      }
    }
  }

  method CollectResultIds<A, R>(invs: seq<Invocation<A, R>>) returns (toolResultIds: seq<string>)
    ensures toolResultIds == ResultIds(invs)
  {
    toolResultIds := [];
    for i := 0 to |invs|
      invariant toolResultIds == ResultIds(invs[..i])
    {
      assert invs[..i + 1][..i] == invs[..i];
      if invs[i].state == Result {
        toolResultIds := toolResultIds + [invs[i].toolCallId];
      }
    }
    assert invs[..|invs|] == invs;
  }

  /** The predicate of the invocation filter. */
  predicate KeepInvocation<A, R>(inv: Invocation<A, R>, toolResultIds: seq<string>)
  {
    inv.state == Result || inv.toolCallId in toolResultIds
  }

  function FilterInvocations<A, R>(invs: seq<Invocation<A, R>>, toolResultIds: seq<string>): seq<Invocation<A, R>>
  {
    Filter(invs, (inv: Invocation<A, R>) => KeepInvocation(inv, toolResultIds))
  }

  /**
   * The callback of `messages.map`: only an assistant message with
   * `toolInvocations` is rewritten, and then only that list changes, to an
   * order-preserving subsequence of it (which one: `UIInvocationsKept`).
   */
  function SanitizeUIMessage<A, R>(m: UIMessage<A, R>): (r: UIMessage<A, R>)
    ensures r == m.(toolInvocations := r.toolInvocations)
    ensures !(m.role == Assistant && m.toolInvocations.Some?) ==> r == m
    ensures m.role == Assistant && m.toolInvocations.Some? ==>
      var invs := m.toolInvocations.value;
      && r.toolInvocations.Some?
      && IsSubsequence(r.toolInvocations.value, invs)
  {
    if m.role != Assistant then m
    else match m.toolInvocations
      case None => m
      case Some(invs) =>
        FilterIsSubsequence(invs, (inv: Invocation<A, R>) => KeepInvocation(inv, ResultIds(invs)));
        m.(toolInvocations := Some(FilterInvocations(invs, ResultIds(invs))))
  }

  /** The predicate of the message filter: some text, or some invocation left. */
  predicate IsShown<A, R>(m: UIMessage<A, R>)
  {
    |m.content| > 0 || (m.toolInvocations.Some? && |m.toolInvocations.value| > 0)
  }

  function DropEmptyUI<A, R>(msgs: seq<UIMessage<A, R>>): seq<UIMessage<A, R>>
  {
    Filter(msgs, (m: UIMessage<A, R>) => IsShown(m))
  }

  ghost function SanitizedInvocations<A, R>(msgs: seq<UIMessage<A, R>>): seq<UIMessage<A, R>>
  {
    seq(|msgs|, i requires 0 <= i < |msgs| => SanitizeUIMessage(msgs[i]))
  }

  ghost function SanitizeUI<A, R>(msgs: seq<UIMessage<A, R>>): seq<UIMessage<A, R>>
  {
    DropEmptyUI(SanitizedInvocations(msgs))
  }

  method SanitizeUIMessages<A, R>(messages: seq<UIMessage<A, R>>) returns (r: seq<UIMessage<A, R>>)
    ensures r == SanitizeUI(messages)
  {
    var messagesBySanitizedToolInvocations: seq<UIMessage<A, R>> := [];
    for i := 0 to |messages|
      invariant |messagesBySanitizedToolInvocations| == i
      invariant forall k :: 0 <= k < i ==> messagesBySanitizedToolInvocations[k] == SanitizeUIMessage(messages[k])
    {
      var message := messages[i];
      if message.role == Assistant && message.toolInvocations.Some? {
        var toolInvocations := message.toolInvocations.value;
        var toolResultIds := CollectResultIds(toolInvocations);
        message := message.(toolInvocations := Some(FilterInvocations(toolInvocations, toolResultIds)));
      }
      messagesBySanitizedToolInvocations := messagesBySanitizedToolInvocations + [message];
    }
    assert messagesBySanitizedToolInvocations == SanitizedInvocations(messages);
    r := DropEmptyUI(messagesBySanitizedToolInvocations);
  }

  // ---------------------------------------------------------------------------
  // sanitizeUIMessages: what it promises
  // ---------------------------------------------------------------------------

  /**
   * In an assistant message with `toolInvocations`, an invocation survives
   * exactly when it is a `result` or the same message holds a `result` with
   * its toolCallId; survivors keep their order. Every other message is
   * unchanged by the map stage.
   */
  lemma UIInvocationsKept<A, R>(m: UIMessage<A, R>)
    ensures !(m.role == Assistant && m.toolInvocations.Some?) ==> SanitizeUIMessage(m) == m
    ensures m.role == Assistant && m.toolInvocations.Some? ==>
      var invs := m.toolInvocations.value;
      var out := SanitizeUIMessage(m);
      out == m.(toolInvocations := out.toolInvocations) && out.toolInvocations.Some?
      && IsSubsequence(out.toolInvocations.value, invs)
      && (forall inv :: inv in out.toolInvocations.value <==>
           inv in invs && (inv.state == Result || HasResult(invs, inv.toolCallId)))
      && forall inv :: multiset(out.toolInvocations.value)[inv] ==
           if inv.state == Result || HasResult(invs, inv.toolCallId) then multiset(invs)[inv] else 0
  {
    if m.role == Assistant && m.toolInvocations.Some? {
      var invs := m.toolInvocations.value;
      var keep := (inv: Invocation<A, R>) => KeepInvocation(inv, ResultIds(invs));
      FilterIsSubsequence(invs, keep);
      forall inv ensures inv in FilterInvocations(invs, ResultIds(invs)) <==>
                         inv in invs && (inv.state == Result || HasResult(invs, inv.toolCallId)) {
        FilterMembership(invs, keep, inv);
        ResultIdsMeaning(invs, inv.toolCallId);
      }
      forall inv ensures multiset(FilterInvocations(invs, ResultIds(invs)))[inv] ==
                         if inv.state == Result || HasResult(invs, inv.toolCallId) then multiset(invs)[inv] else 0 {
        FilterCount(invs, keep, inv);
        ResultIdsMeaning(invs, inv.toolCallId);
      }
    }
  }

  /**
   * The output is an order-preserving subsequence of the mapped messages and
   * holds exactly those of them with some text or some invocation left.
   */
  lemma UIMessagesKept<A, R>(msgs: seq<UIMessage<A, R>>)
    ensures IsSubsequence(SanitizeUI(msgs), SanitizedInvocations(msgs))
    ensures forall m :: m in SanitizeUI(msgs) <==> m in SanitizedInvocations(msgs) && IsShown(m)
    ensures forall k :: 0 <= k < |SanitizeUI(msgs)| ==>
      |SanitizeUI(msgs)[k].content| > 0 || (SanitizeUI(msgs)[k].toolInvocations.Some? && |SanitizeUI(msgs)[k].toolInvocations.value| > 0)
    ensures forall m :: multiset(SanitizeUI(msgs))[m] == if IsShown(m) then multiset(SanitizedInvocations(msgs))[m] else 0
  {
    var keep := (m: UIMessage<A, R>) => IsShown(m);
    FilterIsSubsequence(SanitizedInvocations(msgs), keep);
    forall m ensures m in SanitizeUI(msgs) <==> m in SanitizedInvocations(msgs) && IsShown(m) {
      FilterMembership(SanitizedInvocations(msgs), keep, m);
    }
    forall m ensures multiset(SanitizeUI(msgs))[m] == if IsShown(m) then multiset(SanitizedInvocations(msgs))[m] else 0 {
      FilterCount(SanitizedInvocations(msgs), keep, m);
    }
  }

  /** Sanitising a message's invocations twice is sanitising them once. */
  lemma UIMessageIdempotent<A, R>(m: UIMessage<A, R>)
    ensures SanitizeUIMessage(SanitizeUIMessage(m)) == SanitizeUIMessage(m)
  {
    if m.role == Assistant && m.toolInvocations.Some? {
      var invs := m.toolInvocations.value;
      var ids := ResultIds(invs);
      var kept := FilterInvocations(invs, ids);
      var ids' := ResultIds(kept);
      var keep := (inv: Invocation<A, R>) => KeepInvocation(inv, ids);
      forall id ensures id in ids <==> id in ids' {
        ResultIdsMeaning(invs, id);
        ResultIdsMeaning(kept, id);
        if HasResult(invs, id) {
          var k :| 0 <= k < |invs| && invs[k].state == Result && invs[k].toolCallId == id;
          FilterMembership(invs, keep, invs[k]);
        }
        if HasResult(kept, id) {
          var k :| 0 <= k < |kept| && kept[k].state == Result && kept[k].toolCallId == id;
          FilterMembership(invs, keep, kept[k]);
        }
      }
      FilterAgain(invs, keep, (inv: Invocation<A, R>) => KeepInvocation(inv, ids'));
    }
  }

  /** `sanitizeUIMessages` is idempotent. */
  lemma UIIdempotent<A, R>(msgs: seq<UIMessage<A, R>>)
    ensures SanitizeUI(SanitizeUI(msgs)) == SanitizeUI(msgs)
  {
    var mapped := SanitizedInvocations(msgs);
    var out := SanitizeUI(msgs);
    var keep := (m: UIMessage<A, R>) => IsShown(m);
    forall k | 0 <= k < |out| ensures SanitizeUIMessage(out[k]) == out[k] {
      FilterMembership(mapped, keep, out[k]);
      var q :| 0 <= q < |mapped| && mapped[q] == out[k];
      UIMessageIdempotent(msgs[q]);
    }
    assert SanitizedInvocations(out) == out;
    FilterKeepsAll(out, keep);
  }
}
