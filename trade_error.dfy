/** Turning an error raised by the wallet provider or the contract into the
    message shown to the user: walk the nested causes, keep the innermost
    reason, strip the revert prefix and map the result to text. */
module TradeError {
  import opened Common

  /** A value found where an error or a nested cause is expected. */
  datatype Cause =
    | Nullish                 // `null` or `undefined`: `??` skips it and the walk stops
    | Falsy                   // `0`, `''`, `false`: not nullish, so `??` keeps it, but the walk stops
    | Layer(obj: ErrorObject) // any truthy value; one that is not an object reads as a layer with no fields

  /** The `data` property of an error, as far as the classifier reads it.
      A `data` that is missing or carries neither field is `None`. */
  datatype ErrorData = ErrorData(message: Option<string>, originalError: Cause)

  /** One layer of an error: the properties the trade code reads. */
  datatype ErrorObject = ErrorObject(
    reason: Option<string>,
    message: Option<string>,
    data: Option<ErrorData>,
    error: Cause,
    code: Option<int>)

  /** `error.reason ?? error.data?.message ?? error.message` */
  function LayerReason(e: ErrorObject): (r: Option<string>)
    ensures r.None? <==> e.reason.None? && (e.data.None? || e.data.value.message.None?) && e.message.None?
    ensures e.reason.Some? ==> r == e.reason
    ensures e.reason.None? && e.data.Some? && e.data.value.message.Some? ==> r == e.data.value.message
    ensures r.Some? ==> r == e.reason || (e.data.Some? && r == e.data.value.message) || r == e.message
  {
    if e.reason.Some? then e.reason
    else if e.data.Some? && e.data.value.message.Some? then e.data.value.message
    else e.message
  }

  /** `error.error ?? error.data?.originalError`: the cause the walk descends to. */
  function Next(e: ErrorObject): (n: Cause)
    ensures !e.error.Nullish? ==> n == e.error
    ensures e.error.Nullish? ==> n == (if e.data.Some? then e.data.value.originalError else Nullish)
    ensures n.Nullish? <==> e.error.Nullish? && (e.data.None? || e.data.value.originalError.Nullish?)
  {
    if !e.error.Nullish? then e.error
    else if e.data.Some? then e.data.value.originalError
    else Nullish
  }

  /** `error?.code` */
  function Code(c: Cause): (code: Option<int>)
    ensures !c.Layer? ==> code.None?
    ensures c.Layer? ==> code == c.obj.code
  {
    if c.Layer? then c.obj.code else None
  }

  /** The layers the walk visits, outermost first. */
  function Layers(c: Cause): seq<ErrorObject>
    decreases c
  {
    match c
    case Layer(e) => [e] + Layers(Next(e))
    case _ => []
  }

  /** The reason held when the walk that starts at `c` ends, `carried` being
      the reason held when it reaches `c`: each layer that has a reason of
      its own replaces the one carried so far. */
  function Walk(c: Cause, carried: Option<string>): (r: Option<string>)
    ensures carried.Some? ==> r.Some?
    ensures !c.Layer? ==> r == carried
    decreases c
  {
    match c
    case Layer(e) => Walk(Next(e), if LayerReason(e).Some? then LayerReason(e) else carried)
    case _ => carried
  }

  /** When no layer has a reason of its own, the walk ends with the reason
      carried in. */
  lemma {:induction false} WalkWithoutReasons(c: Cause, carried: Option<string>)
    requires forall i :: 0 <= i < |Layers(c)| ==> LayerReason(Layers(c)[i]).None?
    ensures Walk(c, carried) == carried
    decreases c
  {
    if c.Layer? {
      var inner := Layers(Next(c.obj));
      assert Layers(c) == [c.obj] + inner;
      assert LayerReason(Layers(c)[0]).None?;
      forall i | 0 <= i < |inner| ensures LayerReason(inner[i]).None? {
        assert inner[i] == Layers(c)[i + 1];
      }
      WalkWithoutReasons(Next(c.obj), carried);
    }
  }

  /** The walk does not stop at the first reason it finds: the result is the
      reason of the innermost layer that has one. */
  lemma {:induction false} WalkKeepsInnermostReason(c: Cause, carried: Option<string>)
    requires exists i :: 0 <= i < |Layers(c)| && LayerReason(Layers(c)[i]).Some?
    ensures
      exists i :: 0 <= i < |Layers(c)| && Walk(c, carried) == LayerReason(Layers(c)[i]) && Walk(c, carried).Some? &&
        forall j :: i < j < |Layers(c)| ==> LayerReason(Layers(c)[j]).None?
    decreases c
  {
    var e := c.obj;
    var carried' := if LayerReason(e).Some? then LayerReason(e) else carried;
    var inner := Layers(Next(e));
    assert Layers(c) == [e] + inner;
    if exists i :: 0 <= i < |inner| && LayerReason(inner[i]).Some? {
      WalkKeepsInnermostReason(Next(e), carried');
      var i :| 0 <= i < |inner| && Walk(c, carried) == LayerReason(inner[i]) && Walk(c, carried).Some? &&
        forall j :: i < j < |inner| ==> LayerReason(inner[j]).None?;
      assert Layers(c)[i + 1] == inner[i];
      assert forall j :: i + 1 < j < |Layers(c)| ==> Layers(c)[j] == inner[j - 1];
    } else {
      WalkWithoutReasons(Next(e), carried');
      assert LayerReason(e).Some? by {
        var i :| 0 <= i < |Layers(c)| && LayerReason(Layers(c)[i]).Some?;
        if i > 0 {
          assert Layers(c)[i] == inner[i - 1];
        }
      }
      assert Layers(c)[0] == e;
      assert forall j :: 0 < j < |Layers(c)| ==> Layers(c)[j] == inner[j - 1];
    }
  }

  /** An error with no reason at any depth leaves the walk without a
      reason, and the classifier then answers with the type-error text:
      `undefined?.indexOf(...)` is `undefined`, which differs from -1. */
  lemma NoReasonAnywhere(c: Cause)
    requires forall i :: 0 <= i < |Layers(c)| ==> LayerReason(Layers(c)[i]).None?
    ensures Walk(c, None) == None
    ensures UserReadableMessage(c) == TypeErrorMessage
  {
    WalkWithoutReasons(c, None);
  }

  /** `s` holds `sub` starting at position `i`. */
  predicate OccursAt(s: string, sub: string, i: int) {
    0 <= i && i + |sub| <= |s| && s[i..i + |sub|] == sub
  }

  predicate Contains(s: string, sub: string) {
    exists i | 0 <= i <= |s| :: OccursAt(s, sub, i)
  }

  /** `s.indexOf(sub, from)` of JavaScript for `from <= |s|`. */
  function IndexFrom(s: string, sub: string, from: nat): (r: int)
    requires from <= |s|
    ensures r == -1 || (from <= r && OccursAt(s, sub, r))
    ensures r == -1 ==> forall i :: from <= i ==> !OccursAt(s, sub, i)
    ensures r != -1 ==> forall i :: from <= i < r ==> !OccursAt(s, sub, i)
    decreases |s| - from
  {
    if from + |sub| > |s| then -1
    else if s[from..from + |sub|] == sub then from
    else IndexFrom(s, sub, from + 1)
  }

  /** `s.indexOf(sub)`: the first position where `sub` occurs, or -1. */
  function IndexOf(s: string, sub: string): (r: int)
    ensures r == -1 <==> !Contains(s, sub)
    ensures r != -1 ==> OccursAt(s, sub, r) && forall i :: 0 <= i < r ==> !OccursAt(s, sub, i)
    ensures r == 0 <==> sub <= s
  {
    IndexFrom(s, sub, 0)
  }

  const RevertPrefix := "execution reverted: "
  const InvalidPartnerId := "Synchronizer: INVALID_PARTNER_ID"
  const InvalidPartnerGuidance :=
    "This transaction will not succeed due to an invalid partner ID. Try registering an address via PartnerManager."
  const TypeErrorMarker := "undefined is not an object"
  const TypeErrorMessage := ": s"
  const UnknownError := "Unknown error"

  /** `reason?.indexOf(RevertPrefix) === 0`, then drop the prefix once. */
  function StripRevertPrefix(reason: Option<string>): (r: Option<string>)
    ensures reason.None? ==> r.None?
    ensures reason.Some? && RevertPrefix <= reason.value ==> r.Some? && RevertPrefix + r.value == reason.value
    ensures reason.Some? && !(RevertPrefix <= reason.value) ==> r == reason
  {
    if reason.Some? && IndexOf(reason.value, RevertPrefix) == 0 then
      Some(reason.value[|RevertPrefix|..])
    else
      reason
  }

  /** The prefix is removed once, and only where the reason begins with it. */
  lemma StripOnce(rest: string)
    ensures StripRevertPrefix(Some(RevertPrefix + RevertPrefix + rest)) == Some(RevertPrefix + rest)
    ensures StripRevertPrefix(Some("x" + RevertPrefix + rest)) == Some("x" + RevertPrefix + rest)
  {
    assert RevertPrefix <= RevertPrefix + RevertPrefix + rest;
    assert (RevertPrefix + RevertPrefix + rest)[|RevertPrefix|..] == RevertPrefix + rest;
    assert ("x" + RevertPrefix + rest)[0] == 'x' != RevertPrefix[0];
  }

  /** The `switch` on the reason left after stripping. */
  function MessageForReason(reason: Option<string>): (m: string)
    ensures var s := StripRevertPrefix(reason);
      && (s == Some(InvalidPartnerId) ==> m == InvalidPartnerGuidance)
      && (s != Some(InvalidPartnerId) && (s.None? || Contains(s.value, TypeErrorMarker)) ==> m == TypeErrorMessage)
      && (s == Some("") ==> m == UnknownError)
      && (s.Some? && s.value != "" && s.value != InvalidPartnerId && !Contains(s.value, TypeErrorMarker) ==>
            m == UnknownError + ": \"" + s.value + "\"")
  {
    var s := StripRevertPrefix(reason);
    if s == Some(InvalidPartnerId) then InvalidPartnerGuidance
    else if s.None? || IndexOf(s.value, TypeErrorMarker) != -1 then TypeErrorMessage
    else if s.value == "" then UnknownError
    else UnknownError + ": \"" + s.value + "\""
  }

  /** What `tradeErrorToUserReadableMessage` returns for `error`. */
  function UserReadableMessage(error: Cause): (m: string)
    ensures m == InvalidPartnerGuidance || m == TypeErrorMessage || UnknownError <= m
  {
    MessageForReason(Walk(error, None))
  }

  /** Distinct unknown reasons are never merged: a message of the form
      `Unknown error: "<reason>"` gives back the reason it was made from. */
  lemma {:induction false} UnknownReasonRecoverable(a: Option<string>, b: Option<string>)
    requires MessageForReason(a) == MessageForReason(b)
    requires MessageForReason(a) != InvalidPartnerGuidance
    requires MessageForReason(a) != TypeErrorMessage
    ensures StripRevertPrefix(a) == StripRevertPrefix(b)
  {
    var sa, sb := StripRevertPrefix(a), StripRevertPrefix(b);
    var prefix := UnknownError + ": \"";
    if sa.Some? && sa.value != "" && sb.Some? && sb.value != "" {
      var ma, mb := MessageForReason(a), MessageForReason(b);
      assert ma == prefix + sa.value + "\"";
      assert mb == prefix + sb.value + "\"";
      assert sa.value == ma[|prefix|..|ma| - 1];
      assert sb.value == mb[|prefix|..|mb| - 1];
    } else if sa.Some? && sa.value != "" {
      assert false;
    } else if sb.Some? && sb.value != "" {
      assert false;
    }
  }

  /** The classifier as the source writes it: a loop that reassigns the
      reason and the error at each layer, then the post-processing. */
  method TradeErrorToUserReadableMessage(error: Cause) returns (m: string)
    ensures m == UserReadableMessage(error)
  {
    var reason: Option<string> := None;
    var e := error;
    while e.Layer?
      invariant Walk(e, reason) == Walk(error, None)
      decreases e
    {
      reason := if LayerReason(e.obj).Some? then LayerReason(e.obj) else reason;
      e := Next(e.obj);
    }
    m := MessageForReason(reason);
  }

  /** The nested invalid-partner revert gives the registration guidance,
      not the raw revert text. */
  lemma NestedPartnerRevert()
    ensures UserReadableMessage(Layer(ErrorObject(None, None, None,
      Layer(ErrorObject(None, None, Some(ErrorData(Some(RevertPrefix + InvalidPartnerId), Nullish)), Nullish, None)),
      None))) == InvalidPartnerGuidance
  {
    var raw := RevertPrefix + InvalidPartnerId;
    var inner := ErrorObject(None, None, Some(ErrorData(Some(raw), Nullish)), Nullish, None);
    assert Walk(Layer(inner), None) == Some(raw);
    assert RevertPrefix <= raw;
    assert raw[|RevertPrefix|..] == InvalidPartnerId;
    assert StripRevertPrefix(Some(raw)) == Some(InvalidPartnerId);
  }

  /** A revert whose reason has no mapping is shown quoted after `Unknown error: `,
      without the revert prefix. */
  lemma UnmappedRevert(s: string)
    requires s != "" && s != InvalidPartnerId && !Contains(s, TypeErrorMarker)
    ensures UserReadableMessage(Layer(ErrorObject(None, Some(RevertPrefix + s), None, Nullish, None)))
      == UnknownError + ": \"" + s + "\""
  {
    assert RevertPrefix <= RevertPrefix + s;
    assert (RevertPrefix + s)[|RevertPrefix|..] == s;
    assert StripRevertPrefix(Some(RevertPrefix + s)) == Some(s);
    assert Walk(Layer(ErrorObject(None, Some(RevertPrefix + s), None, Nullish, None)), None) == Some(RevertPrefix + s);
  }
}
