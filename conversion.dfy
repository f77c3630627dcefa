/**
 * Turning stored message rows into UI messages (lib/utils.ts:54-127).
 *
 * `convertToUIMessages` is a `reduce` over the rows: a row with role `tool`
 * adds no UI message but settles the matching tool invocations of the UI
 * messages built so far (`addToolMessageToChat`); every other row becomes one
 * UI message whose text is the concatenation of its text parts and whose
 * invocations are its tool-call parts, in state `call`.
 *
 * `ConvertFold` is that reduce, written over prefixes; `Direct` is an
 * independent description (message j's invocations are settled by the tool
 * rows that come after j), and `ConvertIsDirect` proves the two equal.
 */
module Conversion {
  import opened Wrappers
  import opened Sequences
  import opened ChatTypes

  // ---------------------------------------------------------------------------
  // addToolMessageToChat
  // ---------------------------------------------------------------------------

  /** Part `k` is the first part of `parts` whose `toolCallId` is `id`. */
  ghost predicate FirstMatch<A, R>(parts: seq<Part<A, R>>, id: string, k: int)
  {
    0 <= k < |parts| && PartCallId(parts[k]) == Some(id)
    && forall j :: 0 <= j < k ==> PartCallId(parts[j]) != Some(id)
  }

  /** Some part of `parts` has `toolCallId` equal to `id`. */
  ghost predicate Mentions<A, R>(parts: seq<Part<A, R>>, id: string)
  {
    exists k :: 0 <= k < |parts| && PartCallId(parts[k]) == Some(id)
  }

  /** `toolMessage.content.find((tool) => tool.toolCallId === id)`. */
  function FindPart<A, R>(parts: seq<Part<A, R>>, id: string): (r: Option<Part<A, R>>)
    ensures r.None? <==> !Mentions(parts, id)
    ensures r.Some? ==> exists k :: FirstMatch(parts, id, k) && parts[k] == r.value
  {
    if parts == [] then None
    else if PartCallId(parts[0]) == Some(id) then
      assert FirstMatch(parts, id, 0);
      Some(parts[0])
    else
      var r := FindPart(parts[1..], id);
      assert r.Some? ==> exists k :: FirstMatch(parts, id, k) && parts[k] == r.value by {
        if r.Some? {
          var k :| FirstMatch(parts[1..], id, k) && parts[1..][k] == r.value;
          assert FirstMatch(parts, id, k + 1);
        }
      }
      assert r.None? ==> !Mentions(parts, id) by {
        if r.None? {
          forall k | 0 <= k < |parts| ensures PartCallId(parts[k]) != Some(id) {
            if k > 0 { assert parts[k] == parts[1..][k - 1]; }
          }
        }
      }
      r
  }

  /** One tool invocation after a tool message: settled by the first part that names it, if any. */
  function ResolveInvocation<A, R>(inv: Invocation<A, R>, parts: seq<Part<A, R>>): (r: Invocation<A, R>)
    ensures SettledBy(inv, parts, r)
  {
    match FindPart(parts, inv.toolCallId)
    case Some(p) => inv.(state := Result, result := PartResult(p))
    case None => inv
  }

  /**
   * One UI message after a tool message: only its invocations can change,
   * each settled by the tool message's parts; the list keeps its presence
   * and its length.
   */
  function ResolveMessage<A, R>(m: UIMessage<A, R>, parts: seq<Part<A, R>>): (r: UIMessage<A, R>)
    ensures r.id == m.id && r.role == m.role && r.content == m.content && r.annotations == m.annotations
    ensures r.toolInvocations.Some? == m.toolInvocations.Some?
    ensures m.toolInvocations.Some? ==>
      && |r.toolInvocations.value| == |m.toolInvocations.value|
      && forall j :: 0 <= j < |m.toolInvocations.value| ==>
           SettledBy(m.toolInvocations.value[j], parts, r.toolInvocations.value[j])
  {
    match m.toolInvocations
    case None => m
    case Some(invs) =>
      m.(toolInvocations := Some(seq(|invs|, i requires 0 <= i < |invs| => ResolveInvocation(invs[i], parts))))
  }

  /**
   * `inv'` is what `inv` becomes after a tool message with parts `parts`:
   * if some part names its `toolCallId`, it is in state `result` and carries
   * the `result` of the first such part; otherwise it is unchanged. Its id,
   * name and arguments never change.
   */
  ghost predicate SettledBy<A, R>(inv: Invocation<A, R>, parts: seq<Part<A, R>>, inv': Invocation<A, R>)
  {
    && inv'.toolCallId == inv.toolCallId && inv'.toolName == inv.toolName && inv'.args == inv.args
    && (Mentions(parts, inv.toolCallId) ==>
          inv'.state == Result
          && exists k :: FirstMatch(parts, inv.toolCallId, k) && inv'.result == PartResult(parts[k]))
    && (!Mentions(parts, inv.toolCallId) ==> inv' == inv)
  }

  /** `addToolMessageToChat({ toolMessage, messages })`, with the tool message given by its parts. */
  function AddToolMessage<A, R>(parts: seq<Part<A, R>>, msgs: seq<UIMessage<A, R>>): (r: seq<UIMessage<A, R>>)
    ensures |r| == |msgs|
    ensures forall i :: 0 <= i < |msgs| ==>
      && r[i].id == msgs[i].id && r[i].role == msgs[i].role && r[i].content == msgs[i].content
      && r[i].annotations == msgs[i].annotations
      && r[i].toolInvocations.Some? == msgs[i].toolInvocations.Some?
    ensures forall i :: 0 <= i < |msgs| && msgs[i].toolInvocations.Some? ==>
      |r[i].toolInvocations.value| == |msgs[i].toolInvocations.value|
    ensures forall i, j :: 0 <= i < |msgs| && msgs[i].toolInvocations.Some? && 0 <= j < |msgs[i].toolInvocations.value| ==>
      SettledBy(msgs[i].toolInvocations.value[j], parts, r[i].toolInvocations.value[j])
  {
    seq(|msgs|, i requires 0 <= i < |msgs| => ResolveMessage(msgs[i], parts))
  }

  // ---------------------------------------------------------------------------
  // Content conversion: the `for (const content of message.content)` loop
  // ---------------------------------------------------------------------------

  /** The invocation a `tool-call` part becomes: state `call`, no result yet. */
  function CallOf<A, R>(p: Part<A, R>): Invocation<A, R>
    requires p.ToolCallPart?
  {
    Invocation(Call, p.toolCallId, p.toolName, p.args, None)
  }

  /** `textContent` after the loop has seen `parts`. */
  function TextOf<A, R>(parts: seq<Part<A, R>>): string
  {
    if parts == [] then ""
    else
      var last := parts[|parts| - 1];
      TextOf(parts[..|parts| - 1]) + (if last.TextPart? then last.text else "")
  }

  /** `toolInvocations` after the loop has seen `parts`. */
  function CallsOf<A, R>(parts: seq<Part<A, R>>): seq<Invocation<A, R>>
  {
    if parts == [] then []
    else
      var last := parts[|parts| - 1];
      CallsOf(parts[..|parts| - 1]) + (if last.ToolCallPart? then [CallOf(last)] else [])
  }

  /** The UI text of a content: a string verbatim, the text parts of an array, "" otherwise. */
  function ContentText<A, R>(c: Content<A, R>): string
  {
    match c
    case TextContent(s) => s
    case PartsContent(parts) => TextOf(parts)
    case OtherContent => ""
  }

  /** The tool invocations of a content: those of its tool-call parts, none for other content. */
  function ContentCalls<A, R>(c: Content<A, R>): seq<Invocation<A, R>>
  {
    if c.PartsContent? then CallsOf(c.parts) else []
  }

  /** The UI message a non-tool row becomes before any tool row settles it. */
  function ConvertMessage<A, R>(m: StoredMessage<A, R>): UIMessage<A, R>
  {
    UIMessage(m.id, m.role, ContentText(m.content), Some(ContentCalls(m.content)), None)
  }

  method ConvertContent<A, R>(content: Content<A, R>) returns (text: string, invocations: seq<Invocation<A, R>>)
    ensures text == ContentText(content)
    ensures invocations == ContentCalls(content)
  {
    text := "";
    invocations := [];
    match content {
      case TextContent(s) =>
        text := s;
      case PartsContent(parts) =>
        for i := 0 to |parts|
          invariant text == TextOf(parts[..i])
          invariant invocations == CallsOf(parts[..i])
        {
          assert parts[..i + 1][..i] == parts[..i];
          var part := parts[i];
          if part.TextPart? {
            text := text + part.text;
          } else if part.ToolCallPart? {
            invocations := invocations + [Invocation(Call, part.toolCallId, part.toolName, part.args, None)];
          }
        }
        assert parts[..|parts|] == parts;
      case OtherContent =>
    }
  }

  /** The loop's text is the text parts, concatenated: it splits over a concatenation of part lists. */
  lemma {:induction false} TextOfAppend<A, R>(a: seq<Part<A, R>>, b: seq<Part<A, R>>)
    ensures TextOf(a + b) == TextOf(a) + TextOf(b)
  {
    if b == [] {
      assert a + b == a;
    } else {
      var n := |b| - 1;
      TextOfAppend(a, b[..n]);
      assert (a + b)[..|a + b| - 1] == a + b[..n];
    }
  }

  /** Reference definition: the invocations are the tool-call parts, filtered in order, each mapped to a `call`. */
  lemma {:induction false} CallsOfIsFilterMap<A, R>(parts: seq<Part<A, R>>)
    ensures var calls := Filter(parts, (p: Part<A, R>) => p.ToolCallPart?);
      CallsOf(parts) == seq(|calls|, i requires 0 <= i < |calls| => CallOf(calls[i]))
  {
    var isCall := (p: Part<A, R>) => p.ToolCallPart?;
    if parts != [] {
      var n := |parts| - 1;
      CallsOfIsFilterMap(parts[..n]);
      assert parts == parts[..n] + [parts[n]];
      FilterAppend(parts[..n], [parts[n]], isCall);
    }
  }

  // ---------------------------------------------------------------------------
  // convertToUIMessages
  // ---------------------------------------------------------------------------

  /**
   * The cast to `CoreToolMessage` assumes a `tool` row's content is an array.
   * When it is not, `toolMessage.content.find` throws a `TypeError`, but only
   * once some UI message built so far holds an invocation: that is, once some
   * earlier non-tool row had a tool-call part (`FindIsReached`). This
   * predicate says no `tool` row without an array comes after such a row.
   */
  ghost predicate ToolRowsFindable<A, R>(msgs: seq<StoredMessage<A, R>>)
  {
    forall i, j :: 0 <= j < i < |msgs| && msgs[i].role == Tool && !msgs[i].content.PartsContent? && msgs[j].role != Tool ==>
      |ContentCalls(msgs[j].content)| == 0
  }

  /** The parts of a row, or none when its content is not an array. */
  function RowParts<A, R>(m: StoredMessage<A, R>): seq<Part<A, R>>
  {
    if m.content.PartsContent? then m.content.parts else []
  }

  /** The `reduce` of `convertToUIMessages`, over the prefixes of its input. */
  ghost function ConvertFold<A, R>(msgs: seq<StoredMessage<A, R>>): seq<UIMessage<A, R>>
  {
    if msgs == [] then []
    else
      var m := msgs[|msgs| - 1];
      var acc := ConvertFold(msgs[..|msgs| - 1]);
      if m.role == Tool then AddToolMessage(RowParts(m), acc) else acc + [ConvertMessage(m)]
  }

  /** A tool message changes nothing when no UI message holds an invocation: `find` is never called. */
  lemma AddToolMessageNoCalls<A, R>(parts: seq<Part<A, R>>, msgs: seq<UIMessage<A, R>>)
    requires forall k :: 0 <= k < |msgs| ==> msgs[k].toolInvocations.None? || msgs[k].toolInvocations.value == []
    ensures AddToolMessage(parts, msgs) == msgs
  {
    forall k | 0 <= k < |msgs| ensures AddToolMessage(parts, msgs)[k] == msgs[k] {
      if msgs[k].toolInvocations.Some? {
        var invs := msgs[k].toolInvocations.value;
        assert |seq(|invs|, i requires 0 <= i < |invs| => ResolveInvocation(invs[i], parts))| == 0;
      }
    }
  }

  /**
   * The UI messages built from the rows before `i` hold some invocation
   * exactly when one of those rows is a non-tool row with a tool-call part.
   */
  lemma FindIsReached<A, R>(msgs: seq<StoredMessage<A, R>>, i: nat)
    requires i <= |msgs|
    ensures (exists k :: 0 <= k < |ConvertFold(msgs[..i])| && ConvertFold(msgs[..i])[k].toolInvocations.Some?
                         && ConvertFold(msgs[..i])[k].toolInvocations.value != []) <==>
            (exists j :: 0 <= j < i && msgs[j].role != Tool && |ContentCalls(msgs[j].content)| > 0)
  {
    var pre := msgs[..i];
    var fold, rows := ConvertFold(pre), NonToolRows(pre);
    var keep := (m: StoredMessage<A, R>) => m.role != Tool;
    assert |fold| == |rows| && forall k :: 0 <= k < |fold| ==>
      fold[k].toolInvocations.Some? && |fold[k].toolInvocations.value| == |ContentCalls(rows[k].content)|
    by {
      ConvertOnePerRow(pre);
    }
    if k :| 0 <= k < |fold| && fold[k].toolInvocations.Some? && fold[k].toolInvocations.value != [] {
      assert rows[k] in pre && rows[k].role != Tool by {
        FilterMembership(pre, keep, rows[k]);
      }
      var j :| 0 <= j < |pre| && pre[j] == rows[k];
      assert msgs[j] == rows[k];
    }
    if j :| 0 <= j < i && msgs[j].role != Tool && |ContentCalls(msgs[j].content)| > 0 {
      assert msgs[j] in rows by {
        assert pre[j] == msgs[j];
        FilterMembership(pre, keep, msgs[j]);
      }
      var k :| 0 <= k < |rows| && rows[k] == msgs[j];
      assert fold[k].toolInvocations.value != [];
    }
  }

  method ConvertToUIMessages<A, R>(msgs: seq<StoredMessage<A, R>>) returns (chatMessages: seq<UIMessage<A, R>>)
    requires ToolRowsFindable(msgs)
    ensures chatMessages == ConvertFold(msgs)
  {
    chatMessages := [];
    for i := 0 to |msgs|
      invariant chatMessages == ConvertFold(msgs[..i])
    {
      assert msgs[..i + 1][..i] == msgs[..i];
      var message := msgs[i];
      if message.role == Tool {
        if message.content.PartsContent? {
          chatMessages := AddToolMessage(message.content.parts, chatMessages);
        } else {
          // `find` on non-array content would throw, but no message has an invocation to look up.
          FindIsReached(msgs, i);
          AddToolMessageNoCalls(RowParts(message), chatMessages);
        }
      } else {
        var textContent, toolInvocations := ConvertContent(message.content);
        chatMessages := chatMessages + [UIMessage(message.id, message.role, textContent, Some(toolInvocations), None)];
      }
    }
    assert msgs[..|msgs|] == msgs;
  }

  // ---------------------------------------------------------------------------
  // The direct description and its equivalence with the fold
  // ---------------------------------------------------------------------------

  /** What invocation `inv` becomes after the rows `later` have been folded in. */
  ghost function Settle<A, R>(inv: Invocation<A, R>, later: seq<StoredMessage<A, R>>): Invocation<A, R>
    decreases |later|
  {
    if later == [] then inv
    else Settle(if later[0].role == Tool then ResolveInvocation(inv, RowParts(later[0])) else inv, later[1..])
  }

  /** The UI message of non-tool row `m` once the rows `later` have been folded in. */
  ghost function SettledMessage<A, R>(m: StoredMessage<A, R>, later: seq<StoredMessage<A, R>>): UIMessage<A, R>
  {
    var calls := ContentCalls(m.content);
    UIMessage(m.id, m.role, ContentText(m.content),
              Some(seq(|calls|, i requires 0 <= i < |calls| => Settle(calls[i], later))), None)
  }

  /** One UI message per non-tool row, each settled by the rows after it. */
  ghost function Direct<A, R>(msgs: seq<StoredMessage<A, R>>): seq<UIMessage<A, R>>
  {
    if msgs == [] then []
    else if msgs[0].role == Tool then Direct(msgs[1..])
    else [SettledMessage(msgs[0], msgs[1..])] + Direct(msgs[1..])
  }

  /** The non-tool rows, in order. */
  ghost function NonToolRows<A, R>(msgs: seq<StoredMessage<A, R>>): seq<StoredMessage<A, R>>
  {
    Filter(msgs, (m: StoredMessage<A, R>) => m.role != Tool)
  }

  /** Row `t` settles the invocation named `id`: it is a tool row and one of its parts names `id`. */
  ghost predicate Answers<A, R>(t: StoredMessage<A, R>, id: string)
  {
    t.role == Tool && Mentions(RowParts(t), id)
  }

  lemma {:induction false} SettleAppend<A, R>(inv: Invocation<A, R>, a: seq<StoredMessage<A, R>>, b: seq<StoredMessage<A, R>>)
    ensures Settle(inv, a + b) == Settle(Settle(inv, a), b)
    decreases |a|
  {
    if a == [] {
      assert a + b == b;
    } else {
      assert (a + b)[0] == a[0] && (a + b)[1..] == a[1..] + b;
      var step := if a[0].role == Tool then ResolveInvocation(inv, RowParts(a[0])) else inv;
      SettleAppend(step, a[1..], b);
    }
  }

  lemma SettledMessageEmpty<A, R>(m: StoredMessage<A, R>)
    ensures SettledMessage(m, []) == ConvertMessage(m)
  {
    var calls := ContentCalls(m.content);
    assert seq(|calls|, i requires 0 <= i < |calls| => Settle(calls[i], [])) == calls;
  }

  lemma SettledMessageSnoc<A, R>(m: StoredMessage<A, R>, later: seq<StoredMessage<A, R>>, t: StoredMessage<A, R>)
    ensures SettledMessage(m, later + [t]) ==
            if t.role == Tool then ResolveMessage(SettledMessage(m, later), RowParts(t)) else SettledMessage(m, later)
  {
    var calls := ContentCalls(m.content);
    forall i | 0 <= i < |calls|
      ensures Settle(calls[i], later + [t]) ==
              if t.role == Tool then ResolveInvocation(Settle(calls[i], later), RowParts(t)) else Settle(calls[i], later)
    {
      SettleAppend(calls[i], later, [t]);
    }
    var before := seq(|calls|, i requires 0 <= i < |calls| => Settle(calls[i], later));
    var after := seq(|calls|, i requires 0 <= i < |calls| => Settle(calls[i], later + [t]));
    if t.role == Tool {
      assert after == seq(|before|, i requires 0 <= i < |before| => ResolveInvocation(before[i], RowParts(t)));
    } else {
      assert after == before;
    }
  }

  lemma {:induction false} DirectSnoc<A, R>(msgs: seq<StoredMessage<A, R>>, m: StoredMessage<A, R>)
    ensures Direct(msgs + [m]) ==
            if m.role == Tool then AddToolMessage(RowParts(m), Direct(msgs)) else Direct(msgs) + [ConvertMessage(m)]
    decreases |msgs|
  {
    if msgs == [] {
      assert msgs + [m] == [m];
      SettledMessageEmpty(m);
    } else {
      var x, rest := msgs[0], msgs[1..];
      assert (msgs + [m])[0] == x && (msgs + [m])[1..] == rest + [m];
      DirectSnoc(rest, m);
      if x.role != Tool {
        SettledMessageSnoc(x, rest, m);
        if m.role == Tool {
          AddToolMessageCons(RowParts(m), SettledMessage(x, rest), Direct(rest));
        }
      }
    }
  }

  lemma AddToolMessageCons<A, R>(parts: seq<Part<A, R>>, u: UIMessage<A, R>, d: seq<UIMessage<A, R>>)
    ensures AddToolMessage(parts, [u] + d) == [ResolveMessage(u, parts)] + AddToolMessage(parts, d)
  {
    assert AddToolMessage(parts, [u] + d)[0] == ResolveMessage(u, parts);
  }

  /** The fold of `convertToUIMessages` and the direct description agree on every input. */
  lemma {:induction false} ConvertIsDirect<A, R>(msgs: seq<StoredMessage<A, R>>)
    ensures ConvertFold(msgs) == Direct(msgs)
  {
    if msgs != [] {
      var n := |msgs| - 1;
      ConvertIsDirect(msgs[..n]);
      assert msgs == msgs[..n] + [msgs[n]];
      DirectSnoc(msgs[..n], msgs[n]);
    }
  }

  // ---------------------------------------------------------------------------
  // What the conversion promises
  // ---------------------------------------------------------------------------

  lemma {:induction false} DirectShape<A, R>(msgs: seq<StoredMessage<A, R>>)
    ensures |Direct(msgs)| == |NonToolRows(msgs)|
    ensures forall k :: 0 <= k < |Direct(msgs)| ==>
      var row := NonToolRows(msgs)[k];
      Direct(msgs)[k].id == row.id && Direct(msgs)[k].role == row.role
      && Direct(msgs)[k].content == ContentText(row.content)
      && Direct(msgs)[k].annotations.None?
      && Direct(msgs)[k].toolInvocations.Some?
      && |Direct(msgs)[k].toolInvocations.value| == |ContentCalls(row.content)|
  {
    if msgs != [] {
      var rest := msgs[1..];
      DirectShape(rest);
      if msgs[0].role != Tool {
        var d, rows := Direct(msgs), NonToolRows(msgs);
        assert d == [SettledMessage(msgs[0], rest)] + Direct(rest);
        assert rows == [msgs[0]] + NonToolRows(rest);
        forall k | 0 < k < |d| ensures d[k] == Direct(rest)[k - 1] && rows[k] == NonToolRows(rest)[k - 1] {
        }
      } else {
        assert Direct(msgs) == Direct(rest) && NonToolRows(msgs) == NonToolRows(rest);
      }
    }
  }

  /** `convertToUIMessages` yields one UI message per non-tool row, with its id, role and text, in order. */
  lemma ConvertOnePerRow<A, R>(msgs: seq<StoredMessage<A, R>>)
    ensures |ConvertFold(msgs)| == |NonToolRows(msgs)|
    ensures forall k :: 0 <= k < |ConvertFold(msgs)| ==>
      var row := NonToolRows(msgs)[k];
      ConvertFold(msgs)[k].id == row.id && ConvertFold(msgs)[k].role == row.role
      && ConvertFold(msgs)[k].content == ContentText(row.content)
      && ConvertFold(msgs)[k].toolInvocations.Some?
      && |ConvertFold(msgs)[k].toolInvocations.value| == |ContentCalls(row.content)|
  {
    ConvertIsDirect(msgs);
    DirectShape(msgs);
  }

  /** Non-tool row `j` is the `|NonToolRows(msgs[..j])|`-th UI message, settled by the rows after it. */
  lemma {:induction false} DirectAt<A, R>(msgs: seq<StoredMessage<A, R>>, j: nat)
    requires j < |msgs| && msgs[j].role != Tool
    ensures |NonToolRows(msgs[..j])| < |Direct(msgs)|
    ensures Direct(msgs)[|NonToolRows(msgs[..j])|] == SettledMessage(msgs[j], msgs[j + 1..])
  {
    assert |Direct(msgs)| == |NonToolRows(msgs)| by {
      DirectShape(msgs);
    }
    if j == 0 {
      assert msgs[..0] == [];
    } else {
      assert msgs[1..][..j - 1] == msgs[1..j];
      assert msgs[..j] == [msgs[0]] + msgs[1..j];
      assert msgs[1..][j - 1 + 1..] == msgs[j + 1..];
      DirectAt(msgs[1..], j - 1);
    }
  }

  /**
   * Settling keeps an invocation's id, name and arguments; an invocation no
   * later row answers is left as it was; and one not yet in state `result`
   * ends there exactly when some later tool row answers it.
   */
  lemma {:induction false} SettleFacts<A, R>(inv: Invocation<A, R>, later: seq<StoredMessage<A, R>>)
    ensures var s := Settle(inv, later);
      s.toolCallId == inv.toolCallId && s.toolName == inv.toolName && s.args == inv.args
    ensures (forall q :: 0 <= q < |later| ==> !Answers(later[q], inv.toolCallId)) ==> Settle(inv, later) == inv
    ensures inv.state != Result ==>
      (Settle(inv, later).state == Result <==> exists q :: 0 <= q < |later| && Answers(later[q], inv.toolCallId))
    decreases |later|
  {
    if later != [] {
      var step := if later[0].role == Tool then ResolveInvocation(inv, RowParts(later[0])) else inv;
      SettleFacts(step, later[1..]);
      if Answers(later[0], inv.toolCallId) {
        SettleStaysResult(step, later[1..]);
      } else {
        assert step == inv;
        forall q | 0 < q < |later| ensures later[q] == later[1..][q - 1] { }
      }
    }
  }

  /** Once in state `result`, an invocation stays there. */
  lemma {:induction false} SettleStaysResult<A, R>(inv: Invocation<A, R>, later: seq<StoredMessage<A, R>>)
    requires inv.state == Result
    ensures Settle(inv, later).state == Result
    decreases |later|
  {
    if later != [] {
      var step := if later[0].role == Tool then ResolveInvocation(inv, RowParts(later[0])) else inv;
      SettleStaysResult(step, later[1..]);
    }
  }

  /**
   * The value an invocation ends up with is the `result` of the first part that
   * names it in the LAST tool row that names it.
   */
  lemma SettleResult<A, R>(inv: Invocation<A, R>, later: seq<StoredMessage<A, R>>, last: nat)
    requires last < |later| && Answers(later[last], inv.toolCallId)
    requires forall q :: last < q < |later| ==> !Answers(later[q], inv.toolCallId)
    ensures Settle(inv, later).state == Result
    ensures exists k :: FirstMatch(RowParts(later[last]), inv.toolCallId, k)
                        && Settle(inv, later).result == PartResult(RowParts(later[last])[k])
  {
    var pre, t, tail := later[..last], later[last], later[last + 1..];
    var settled := ResolveInvocation(Settle(inv, pre), RowParts(t));
    assert Settle(inv, later) == Settle(settled, tail) by {
      assert later == pre + [t] + tail;
      SettleAppend(inv, pre + [t], tail);
      SettleAppend(inv, pre, [t]);
      assert [t][1..] == [];
    }
    assert settled.toolCallId == inv.toolCallId by {
      SettleFacts(inv, pre);
    }
    forall q | 0 <= q < |tail| ensures !Answers(tail[q], settled.toolCallId) {
      assert tail[q] == later[last + 1 + q];
    }
    SettleFacts(settled, tail);
  }

  /**
   * Each invocation of the UI message of non-tool row `j` comes from the
   * `i`-th tool-call part of that row (same id, name and arguments). It is in
   * state `result` exactly when some later `tool` row names its id, and is
   * otherwise the untouched `call`.
   */
  lemma ConvertedInvocation<A, R>(msgs: seq<StoredMessage<A, R>>, j: nat, i: nat)
    requires j < |msgs| && msgs[j].role != Tool
    requires i < |ContentCalls(msgs[j].content)|
    ensures var k := |NonToolRows(msgs[..j])|;
      var call := ContentCalls(msgs[j].content)[i];
      k < |ConvertFold(msgs)| && ConvertFold(msgs)[k].toolInvocations.Some?
      && |ConvertFold(msgs)[k].toolInvocations.value| == |ContentCalls(msgs[j].content)|
      && var inv := ConvertFold(msgs)[k].toolInvocations.value[i];
      && inv.toolCallId == call.toolCallId && inv.toolName == call.toolName && inv.args == call.args
      && (inv.state == Result <==> exists q :: j < q < |msgs| && Answers(msgs[q], call.toolCallId))
      && (inv.state != Result ==> inv == call)
  {
    ConvertIsDirect(msgs);
    DirectAt(msgs, j);
    var call := ContentCalls(msgs[j].content)[i];
    CallIsCall(msgs[j].content, i);
    var later := msgs[j + 1..];
    SettleFacts(call, later);
    if exists q :: 0 <= q < |later| && Answers(later[q], call.toolCallId) {
      var q :| 0 <= q < |later| && Answers(later[q], call.toolCallId);
      assert later[q] == msgs[j + 1 + q];
    }
    if exists q :: j < q < |msgs| && Answers(msgs[q], call.toolCallId) {
      var q :| j < q < |msgs| && Answers(msgs[q], call.toolCallId);
      assert later[q - j - 1] == msgs[q];
    }
  }

  /** Every invocation built from content is in state `call`. */
  lemma CallIsCall<A, R>(c: Content<A, R>, i: nat)
    requires i < |ContentCalls(c)|
    ensures ContentCalls(c)[i].state == Call && ContentCalls(c)[i].result.None?
  {
    if c.PartsContent? {
      CallsAreCalls(c.parts);
    }
  }

  lemma {:induction false} CallsAreCalls<A, R>(parts: seq<Part<A, R>>)
    ensures forall i :: 0 <= i < |CallsOf(parts)| ==> CallsOf(parts)[i].state == Call && CallsOf(parts)[i].result.None?
  {
    if parts != [] {
      CallsAreCalls(parts[..|parts| - 1]);
    }
  }
}
