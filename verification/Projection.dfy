/** The error projection of packages/core/src/diagnostics/projection.ts and the parts of
    packages/core/src/diagnostics/report.ts that group reports: every requester of one failure must see
    the same failing node, cause, kind, operation, message and fingerprint. */
module Projection {
  import opened Prelude

  /** The tags Frond gives its own failures and key errors; any other tag is the app's. */
  datatype Tag =
    | AcquireFailed | ActionFailed | CycleDetected | DependencyDefinitionFailed
    | DependencyDefinitionFailures | DependencyFailed | DependencyFailures | DependencyRefreshFailed
    | DependencyResultExpired | DisposerFailed | DisposerTimedOut | DriverOperationTimedOut
    | DriverPromiseFailed | DuplicateNodeTag | EffectBoundaryFailed | GraphConfigInvalid
    | GraphInvariantViolation | KeyBuildFailed | LiveDeliveryFailed | NodeConstructionFailed | NodeEvicted
    | RefreshFailed | ReleaseFailed | ResultExpired | SpecOverrideFailed | UnsafeUpdateNodeFailed
    | UpdateNodeArgsFailed | AsyncSignalSubscriberFailed | FrondNodeNotReady | FrondRuntimeClosed
    | FrondRuntimeInvariantViolation | FrondRuntimeReadError | FrondRuntimeUnavailable
    | RuntimeReportSinkHandlerFailed | KeyNonFiniteNumberError | KeyTooLongError
    | KeyUnsupportedJsonValueError
    | AppTag(tagName: string)

  /** One value of a cause chain: its identity and what the walk reads from it. */
  datatype Frame = Frame(
    raw: nat,                    // identity of the value
    isError: bool,
    isObject: bool,
    thrownType: string,          // ThrownString, ThrownObject ...
    reported: bool,              // a readiness attempt failed with this very object
    tag: Option<Tag>,
    name: Option<Tag>,
    kind: Option<string>,
    nodeId: Option<string>,
    nodeTag: Option<string>,
    operation: Option<string>,
    action: Option<string>,
    stage: Option<string>,
    invariant_: Option<string>,
    message: Option<string>)     // the value's own message

  datatype FrameClass = Frond | Carrier | App

  datatype Kind = Invalid | Readiness | Runtime | Operation | Live | Unexpected

  datatype NodeRef = NodeRef(id: string, tag: string)

  datatype Projected = Projected(
    headline: string,
    kind: Kind,
    causeType: string,
    causeMessage: string,
    failingNode: Option<NodeRef>,
    operation: Option<string>,
    failingFailure: nat)

  const UNCLASSIFIED_CAUSE_TYPE := "Error"
  const PROJECTION_MAX_DEPTH := 256

  const BOILERPLATE_PREFIX := "An error occurred in Effect."

  // ---------------------------------------------------------------- one frame

  function TagName(t: Tag): string
  {
    match t
    case AcquireFailed => "AcquireFailed"
    case ActionFailed => "ActionFailed"
    case CycleDetected => "CycleDetected"
    case DependencyDefinitionFailed => "DependencyDefinitionFailed"
    case DependencyDefinitionFailures => "DependencyDefinitionFailures"
    case DependencyFailed => "DependencyFailed"
    case DependencyFailures => "DependencyFailures"
    case DependencyRefreshFailed => "DependencyRefreshFailed"
    case DependencyResultExpired => "DependencyResultExpired"
    case DisposerFailed => "DisposerFailed"
    case DisposerTimedOut => "DisposerTimedOut"
    case DriverOperationTimedOut => "DriverOperationTimedOut"
    case DriverPromiseFailed => "DriverPromiseFailed"
    case DuplicateNodeTag => "DuplicateNodeTag"
    case EffectBoundaryFailed => "EffectBoundaryFailed"
    case GraphConfigInvalid => "GraphConfigInvalid"
    case GraphInvariantViolation => "GraphInvariantViolation"
    case KeyBuildFailed => "KeyBuildFailed"
    case LiveDeliveryFailed => "LiveDeliveryFailed"
    case NodeConstructionFailed => "NodeConstructionFailed"
    case NodeEvicted => "NodeEvicted"
    case RefreshFailed => "RefreshFailed"
    case ReleaseFailed => "ReleaseFailed"
    case ResultExpired => "ResultExpired"
    case SpecOverrideFailed => "SpecOverrideFailed"
    case UnsafeUpdateNodeFailed => "UnsafeUpdateNodeFailed"
    case UpdateNodeArgsFailed => "UpdateNodeArgsFailed"
    case AsyncSignalSubscriberFailed => "AsyncSignalSubscriberFailed"
    case FrondNodeNotReady => "FrondNodeNotReady"
    case FrondRuntimeClosed => "FrondRuntimeClosed"
    case FrondRuntimeInvariantViolation => "FrondRuntimeInvariantViolation"
    case FrondRuntimeReadError => "FrondRuntimeReadError"
    case FrondRuntimeUnavailable => "FrondRuntimeUnavailable"
    case RuntimeReportSinkHandlerFailed => "RuntimeReportSinkHandlerFailed"
    case KeyNonFiniteNumberError => "KeyNonFiniteNumberError"
    case KeyTooLongError => "KeyTooLongError"
    case KeyUnsupportedJsonValueError => "KeyUnsupportedJsonValueError"
    case AppTag(name) => name
  }

  predicate IsKeyErrorTag(t: Tag) { t in {KeyNonFiniteNumberError, KeyTooLongError, KeyUnsupportedJsonValueError} }

  predicate IsOperationTag(t: Tag)
  {
    t in {ActionFailed, DisposerFailed, RefreshFailed, ReleaseFailed, UpdateNodeArgsFailed, UnsafeUpdateNodeFailed}
  }

  predicate IsReadinessTag(t: Tag)
  {
    t in {AcquireFailed, DependencyDefinitionFailures, DependencyFailed, DependencyFailures}
  }

  /** The operation a wrapper names by its type. */
  function WrapperOperation(t: Tag): Option<string>
  {
    match t
    case AcquireFailed => Some("acquire")
    case DependencyDefinitionFailed => Some("deps")
    case DependencyDefinitionFailures => Some("deps")
    case DisposerFailed => Some("dispose")
    case DisposerTimedOut => Some("dispose")
    case KeyBuildFailed => Some("key")
    case NodeConstructionFailed => Some("construct")
    case RefreshFailed => Some("refresh")
    case ReleaseFailed => Some("release")
    case UnsafeUpdateNodeFailed => Some("unsafeUpdate")
    case UpdateNodeArgsFailed => Some("updateArgs")
    case _ => None
  }

  predicate IsKeyError(f: Frame) { f.tag.Some? && IsKeyErrorTag(f.tag.value) }

  function ClassOf(f: Frame): FrameClass
  {
    if f.tag.Some? && !f.tag.value.AppTag? then Frond
    else if f.isError && f.name.Some? && f.name.value in {AppTag("Error"), AppTag("UnknownError")}
      && (f.tag.None? || f.tag.value == AppTag("UnknownError")) then Carrier
    else App
  }

  function TypeOf(f: Frame): string
  {
    if ClassOf(f).Frond? then TagName(f.tag.value)
    else if ClassOf(f).Carrier? then TagName(f.name.value)
    else if f.tag.Some? then TagName(f.tag.value)
    else if f.name.Some? && TagName(f.name.value) != "" then TagName(f.name.value)
    else f.thrownType
  }

  predicate IsFrond(f: Frame) { ClassOf(f).Frond? }

  predicate IsApp(f: Frame) { ClassOf(f).App? }

  predicate IsAction(f: Frame) { f.tag == Some(ActionFailed) }

  predicate HasOperation(f: Frame) { f.operation.Some? }

  predicate IsNode(f: Frame) { IsFrond(f) && f.nodeId.Some? && f.nodeTag.Some? }

  predicate IsBlank(s: string) { forall c :: c in s ==> c in {' ', '\t', '\n', '\r'} }

  predicate IsLetter(c: char) { 'a' <= c <= 'z' || 'A' <= c <= 'Z' }

  /** Effect's default text for an unknown error says nothing. */
  predicate IsBoilerplate(s: string)
  {
    BOILERPLATE_PREFIX <= s && |s| > |BOILERPLATE_PREFIX| && forall c :: c in s[|BOILERPLATE_PREFIX|..] ==> IsLetter(c)
  }

  predicate HasCauseMessage(f: Frame)
  {
    && !IsFrond(f) && f.message.Some? && !IsBlank(f.message.value)
    && !(ClassOf(f).Carrier? && IsBoilerplate(f.message.value))
  }

  // ---------------------------------------------------------------- searching frames

  /** Index of the last frame satisfying `p`, or -1. */
  function LastIndex(frames: seq<Frame>, p: Frame -> bool): (i: int)
    ensures -1 <= i < |frames|
    ensures i >= 0 ==> p(frames[i])
    ensures forall k :: i < k < |frames| ==> !p(frames[k])
  {
    if frames == [] then -1
    else if p(frames[|frames| - 1]) then |frames| - 1
    else LastIndex(frames[..|frames| - 1], p)
  }

  function FindLast(frames: seq<Frame>, p: Frame -> bool): Option<Frame>
  {
    var i := LastIndex(frames, p);
    if i < 0 then None else Some(frames[i])
  }

  /** Index of the first frame satisfying `p`, or the number of frames. */
  function FirstIndex(frames: seq<Frame>, p: Frame -> bool): (i: nat)
    ensures i <= |frames|
    ensures i < |frames| ==> p(frames[i])
    ensures forall k :: 0 <= k < i ==> !p(frames[k])
  {
    if frames == [] || p(frames[0]) then 0 else 1 + FirstIndex(frames[1..], p)
  }

  function FindFirst(frames: seq<Frame>, p: Frame -> bool): Option<Frame>
  {
    var i := FirstIndex(frames, p);
    if i == |frames| then None else Some(frames[i])
  }

  function FailingIndex(frames: seq<Frame>): int { LastIndex(frames, IsNode) }

  /** `previous` is one more Frond frame of the failing node, and no reader's wrapper. */
  predicate Extends(previous: Frame, nodeId: Option<string>)
  {
    IsFrond(previous) && previous.tag != Some(FrondRuntimeReadError) && previous.nodeId == nodeId
  }

  /** Outermost index of the failing node's own frames, never above a failure already reported. */
  function BlockStart(frames: seq<Frame>, start: nat, nodeId: Option<string>): (r: nat)
    requires start < |frames|
    ensures r <= start
  {
    if start > 0 && !frames[start].reported && Extends(frames[start - 1], nodeId)
    then BlockStart(frames, start - 1, nodeId)
    else start
  }

  /** The block the failing node's own frames start at. */
  function OwnStart(frames: seq<Frame>): (r: nat)
    requires FailingIndex(frames) >= 0
    ensures r < |frames|
  {
    BlockStart(frames, FailingIndex(frames), frames[FailingIndex(frames)].nodeId)
  }

  function OperationOfBlock(block: seq<Frame>): Option<string>
  {
    var action := FindFirst(block, IsAction);
    if action.Some? && action.value.action.Some? then action.value.action else CarriedOperation(block)
  }

  function CarriedOperation(block: seq<Frame>): Option<string>
  {
    var operation := FindLast(block, HasOperation);
    var named := FindFirst(block, NamesOperation);
    if operation.Some? then operation.value.operation else if named.Some? then NamedBy(named.value) else None
  }

  /** The operation a frame stands for by what it is. */
  function NamedBy(f: Frame): Option<string>
  {
    if f.tag == Some(LiveDeliveryFailed) then Some(if f.stage.Some? then "live." + f.stage.value else "live")
    else if f.tag.Some? then WrapperOperation(f.tag.value)
    else None
  }

  predicate NamesOperation(f: Frame) { NamedBy(f).Some? }

  // ---------------------------------------------------------------- kind, headline, message

  /** What a frame is called: its tag, else its name. */
  function FrameTag(f: Frame): Option<Tag> { if f.tag.Some? then f.tag else f.name }

  /** What the frames of a chain are searched for. */
  datatype Group = UnavailableRuntime | CycleOrKeyError | OperationFailure | LiveFailure | ReadinessFailure

  predicate InGroup(f: Frame, g: Group)
  {
    var tag := FrameTag(f);
    match g
    case UnavailableRuntime => tag == Some(FrondRuntimeUnavailable)
    case CycleOrKeyError => tag == Some(CycleDetected) || IsKeyError(f)
    case OperationFailure => tag.Some? && IsOperationTag(tag.value)
    case LiveFailure => tag == Some(LiveDeliveryFailed)
    case ReadinessFailure => tag.Some? && IsReadinessTag(tag.value)
  }

  predicate Any(frames: seq<Frame>, g: Group) { exists f :: f in frames && InGroup(f, g) }

  function KindOf(frames: seq<Frame>): Kind
  {
    if frames != [] && frames[0].tag == Some(FrondRuntimeReadError)
      && frames[0].kind in {Some("readiness"), Some("invalid"), Some("runtime")} then
      if frames[0].kind == Some("readiness") then Readiness
      else if frames[0].kind == Some("invalid") then Invalid
      else Runtime
    else if Any(frames, UnavailableRuntime) then Runtime
    else if Any(frames, CycleOrKeyError) then Invalid
    else if Any(frames, OperationFailure) then Operation
    else if Any(frames, LiveFailure) then Live
    else if Any(frames, ReadinessFailure) then Readiness
    else Unexpected
  }

  function ProjectionKind(own: seq<Frame>, all: seq<Frame>): Kind
  {
    Named(KindOf(own), KindOf(all))
  }

  function Named(own: Kind, all: Kind): Kind { if own.Unexpected? then all else own }

  function Headline(kind: Kind, terminal: Frame, causeType: string, raw: Frame): string
  {
    if terminal.tag == Some(CycleDetected) then "Dependency cycle detected"
    else if IsKeyError(terminal) then "Invalid node key"
    else if kind.Readiness? && terminal.tag.Some? && "Key" <= TagName(terminal.tag.value) then
      "Readiness failed: " + causeType
    else match kind
      case Runtime => "Runtime unavailable"
      case Readiness => "Readiness failed"
      case Operation => "Operation failed"
      case Live => "Live work failed"
      case _ =>
        if raw.isError then "Unexpected error: " + (if raw.name.Some? then TagName(raw.name.value) else "Error")
        else if raw.isObject then "Unexpected thrown object"
        else "Unexpected thrown value"
  }

  function StripNodePrefix(message: string, nodeTag: Option<string>): string
  {
    if nodeTag.Some? && nodeTag.value + ": " <= message then message[|nodeTag.value + ": "|..] else message
  }

  function CauseMessage(source: Option<Frame>, causeType: string, terminal: Frame, headline: string): string
  {
    if source.Some? then
      var message := if source.value.message.Some? then source.value.message.value else "";
      if TypeOf(source.value) == causeType || ClassOf(source.value).Carrier? then message
      else TypeOf(source.value) + ": " + message
    else if !IsFrond(terminal) then ""
    else if terminal.tag == Some(CycleDetected) then headline
    else if IsKeyError(terminal) then (if terminal.message.Some? then terminal.message.value else headline)
    else if terminal.invariant_.Some? then terminal.invariant_.value
    else StripNodePrefix(if terminal.message.Some? then terminal.message.value else "", terminal.nodeTag)
  }

  /** The part of the chain a projection is made from. */
  datatype View = View(
    kind: Kind,
    terminal: Frame,            // where the chain ends
    below: seq<Frame>,          // under the failing node's frame
    failing: Option<Frame>,
    block: seq<Frame>,          // the failing node's own frames
    outermost: Frame)

  /** The view when the node frame at `failing` is the last and its block starts at `start`. */
  function NodeView(frames: seq<Frame>, failing: nat, start: nat, kind: Kind): View
    requires start <= failing < |frames|
  {
    var ends := frames[failing].invariant_.Some?;
    View(
      kind,
      if ends then frames[failing] else frames[|frames| - 1],
      if ends then [] else frames[failing + 1..],
      Some(frames[failing]), frames[start..failing + 1], frames[start])
  }

  /** The view of a chain without a node frame; it is anchored at its last Frond frame, if any. */
  function BareView(frames: seq<Frame>): View
    requires frames != []
  {
    BareViewAt(frames, LastIndex(frames, IsFrond), ProjectionKind(frames, frames))
  }

  function BareViewAt(frames: seq<Frame>, anchor: int, kind: Kind): View
    requires -1 <= anchor < |frames| && frames != []
  {
    var ends := anchor >= 0 && frames[anchor].invariant_.Some?;
    View(
      kind,
      if ends then frames[anchor] else frames[|frames| - 1],
      if ends then [] else frames[anchor + 1..],
      None, [], frames[0])
  }

  function NodeKind(frames: seq<Frame>): Kind
    requires FailingIndex(frames) >= 0
  {
    ProjectionKind(frames[OwnStart(frames)..], frames)
  }

  function ViewOf(frames: seq<Frame>): View
    requires frames != []
  {
    if FailingIndex(frames) < 0 then BareView(frames)
    else NodeView(frames, FailingIndex(frames), OwnStart(frames), NodeKind(frames))
  }

  function CauseType(v: View): string
  {
    var typeFrame := FindFirst(v.below, IsApp);
    if typeFrame.Some? then TypeOf(typeFrame.value)
    else if IsFrond(v.terminal) then TypeOf(v.terminal)
    else UNCLASSIFIED_CAUSE_TYPE
  }

  function Present(v: View, raw: Frame): Projected
    requires v.failing.Some? ==> IsNode(v.failing.value)
  {
    var causeType := CauseType(v);
    var headline := Headline(v.kind, v.terminal, causeType, raw);
    Projected(
      headline, v.kind, causeType,
      CauseMessage(FindLast(v.below, HasCauseMessage), causeType, v.terminal, headline),
      if v.failing.None? then None
      else Some(NodeRef(v.failing.value.nodeId.value, v.failing.value.nodeTag.value)),
      if v.failing.None? then None else OperationOfBlock(v.block),
      v.outermost.raw)
  }

  /** `projectErrorUnsafe` over the walked frames, without the requester's own view. */
  function Project(frames: seq<Frame>): Projected
    requires frames != []
  {
    Present(ViewOf(frames), frames[0])
  }

  // ---------------------------------------------------------------- reports

  function ReportMessage(p: Projected): string
  {
    if p.failingNode.None? then (if p.causeMessage != "" then p.causeMessage else p.headline)
    else
      var location := p.failingNode.value.tag + if p.operation.Some? then " " + p.operation.value else "";
      if p.causeMessage != "" then "[" + location + "] " + p.causeMessage else "[" + location + "]"
  }

  predicate IsUnclassified(causeType: string) { causeType == UNCLASSIFIED_CAUSE_TYPE || "Thrown" <= causeType }

  function KindName(kind: Kind): string
  {
    match kind
    case Invalid => "invalid"
    case Readiness => "readiness"
    case Runtime => "runtime"
    case Operation => "operation"
    case Live => "live"
    case Unexpected => "unexpected"
  }

  /** `mask` replaces ids and numbers in a message; any function will do here. */
  function ReportFingerprint(p: Projected, mask: string -> string): seq<string>
  {
    ["frond", KindName(p.kind)]
    + (if p.failingNode.Some? then [p.failingNode.value.tag] else [])
    + (if p.operation.Some? then [p.operation.value] else [])
    + [p.causeType]
    + (if IsUnclassified(p.causeType) && mask(p.causeMessage) != "" then [mask(p.causeMessage)] else [])
  }

  // ---------------------------------------------------------------- what a projection says of the frames

  /** Index `i` is the last of the frames with the property. */
  predicate LastAt(frames: seq<Frame>, p: Frame -> bool, i: int)
  {
    0 <= i < |frames| && p(frames[i]) && forall k :: i < k < |frames| ==> !p(frames[k])
  }

  /** Index `i` is the first with the property from `low` on and before `high`. */
  predicate FirstFrom(frames: seq<Frame>, p: Frame -> bool, low: int, high: int, i: int)
  {
    0 <= low <= i < high <= |frames| && p(frames[i]) && forall k :: low <= k < i ==> !p(frames[k])
  }

  predicate LastFrom(frames: seq<Frame>, p: Frame -> bool, low: int, high: int, i: int)
  {
    0 <= low <= i < high <= |frames| && p(frames[i]) && forall k :: i < k < high ==> !p(frames[k])
  }

  predicate NoneFrom(frames: seq<Frame>, p: Frame -> bool, low: int, high: int)
  {
    forall k :: 0 <= low <= k < high <= |frames| ==> !p(frames[k])
  }

  lemma LastIndexIff(frames: seq<Frame>, p: Frame -> bool, i: int)
    ensures LastIndex(frames, p) == i && i >= 0 <==> LastAt(frames, p, i)
  {
  }

  lemma FirstInSlice(frames: seq<Frame>, p: Frame -> bool, low: nat, high: nat)
    requires low <= high <= |frames|
    ensures var found := FindFirst(frames[low..high], p);
      if found.None? then NoneFrom(frames, p, low, high)
      else exists i :: FirstFrom(frames, p, low, high, i) && frames[i] == found.value
  {
    var part := frames[low..high];
    var i := FirstIndex(part, p);
    forall k | low <= k < high ensures frames[k] == part[k - low] {
    }
    assert i < |part| ==> FirstFrom(frames, p, low, high, low + i) && frames[low + i] == part[i];
  }

  lemma LastInSlice(frames: seq<Frame>, p: Frame -> bool, low: nat, high: nat)
    requires low <= high <= |frames|
    ensures var found := FindLast(frames[low..high], p);
      if found.None? then NoneFrom(frames, p, low, high)
      else exists i :: LastFrom(frames, p, low, high, i) && frames[i] == found.value
  {
    var part := frames[low..high];
    var i := LastIndex(part, p);
    forall k | low <= k < high ensures frames[k] == part[k - low] {
    }
    assert i >= 0 ==> LastFrom(frames, p, low, high, low + i) && frames[low + i] == part[i];
  }

  /** The failing node is told by its id and tag, which are those of the last of Frond's frames to carry both. */
  lemma FailingNodeIff(frames: seq<Frame>, id: string, tag: string)
    requires frames != []
    ensures var node := Project(frames).failingNode;
      node.Some? && node.value.id == id && node.value.tag == tag <==>
      exists i :: LastAt(frames, IsNode, i) && frames[i].nodeId == Some(id) && frames[i].nodeTag == Some(tag)
  {
    var i := FailingIndex(frames);
    LastIndexIff(frames, IsNode, i);
    forall j | LastAt(frames, IsNode, j) ensures j == i {
      LastIndexIff(frames, IsNode, j);
    }
  }

  lemma NoFailingNodeIff(frames: seq<Frame>)
    requires frames != []
    ensures Project(frames).failingNode.None? <==> NoneFrom(frames, IsNode, 0, |frames|)
  {
    assert FailingIndex(frames) >= 0 ==> IsNode(frames[FailingIndex(frames)]);
  }

  /** The frames from `b` to `i` are one run of Frond's frames of one node, none but the outermost of them reported
      before, and the run goes no further out. */
  predicate BlockAt(frames: seq<Frame>, b: int, i: int)
  {
    && 0 <= b <= i < |frames|
    && (forall k :: b < k <= i ==> Follows(frames, k, frames[i].nodeId)) && !Follows(frames, b, frames[i].nodeId)
  }

  /** Frame `k` was not reported before, and the frame around it belongs to the same run. */
  predicate Follows(frames: seq<Frame>, k: int, nodeId: Option<string>)
  {
    0 < k < |frames| && !frames[k].reported && Extends(frames[k - 1], nodeId)
  }

  lemma {:induction false} BlockStartIs(frames: seq<Frame>, start: nat, i: nat)
    requires start <= i < |frames|
    requires forall k :: start < k <= i ==> Follows(frames, k, frames[i].nodeId)
    ensures BlockAt(frames, BlockStart(frames, start, frames[i].nodeId), i)
    decreases start
  {
    if Follows(frames, start, frames[i].nodeId) {
      BlockStartIs(frames, start - 1, i);
    }
  }

  lemma OneBlock(frames: seq<Frame>, b: int, c: int, i: int)
    requires BlockAt(frames, b, i) && BlockAt(frames, c, i)
    ensures b == c
  {
  }

  /** The last node frame is at `i` and the run of the failing node's own frames starts at `b`. */
  predicate Anchored(frames: seq<Frame>, b: int, i: int) { LastAt(frames, IsNode, i) && BlockAt(frames, b, i) }

  lemma AnchoredIff(frames: seq<Frame>, b: int, i: int)
    requires frames != []
    ensures Anchored(frames, b, i) <==> FailingIndex(frames) == i >= 0 && OwnStart(frames) == b
  {
    LastIndexIff(frames, IsNode, i);
    if FailingIndex(frames) == i >= 0 {
      BlockStartIs(frames, i, i);
      if Anchored(frames, b, i) {
        OneBlock(frames, b, OwnStart(frames), i);
      }
    }
  }

  /** The failure reported is the object of the outermost of the failing node's own frames, and of a chain without a
      node its outermost object. */
  lemma FailingFailureIs(frames: seq<Frame>, b: int, i: int)
    requires frames != []
    ensures Anchored(frames, b, i) ==> Project(frames).failingFailure == frames[b].raw
    ensures NoneFrom(frames, IsNode, 0, |frames|) ==> Project(frames).failingFailure == frames[0].raw
  {
    AnchoredIff(frames, b, i);
    if NoneFrom(frames, IsNode, 0, |frames|) {
      NoFailingNodeIff(frames);
    }
  }

  /** The operation of the frames from `low` to `high`: the action of the outermost failed action, else the operation
      of the innermost frame that carries one, else what the outermost frame that stands for one stands for. */
  ghost predicate OperationTold(frames: seq<Frame>, low: int, high: int, operation: Option<string>)
  {
    if exists k :: FirstFrom(frames, IsAction, low, high, k) && frames[k].action.Some? then
      exists k :: FirstFrom(frames, IsAction, low, high, k) && operation == frames[k].action
    else CarriedOrNamed(frames, low, high, operation)
  }

  ghost predicate CarriedOrNamed(frames: seq<Frame>, low: int, high: int, operation: Option<string>)
  {
    if !NoneFrom(frames, HasOperation, low, high) then
      exists k :: LastFrom(frames, HasOperation, low, high, k) && operation == frames[k].operation
    else if !NoneFrom(frames, NamesOperation, low, high) then
      exists k :: FirstFrom(frames, NamesOperation, low, high, k) && operation == NamedBy(frames[k])
    else operation.None?
  }

  lemma OperationOfSlice(frames: seq<Frame>, low: nat, high: nat)
    requires low <= high <= |frames|
    ensures OperationTold(frames, low, high, OperationOfBlock(frames[low..high]))
  {
    var block := frames[low..high];
    FirstInSlice(frames, IsAction, low, high);
    var action := FindFirst(block, IsAction);
    if action.None? || action.value.action.None? {
      CarriedOrNamedInSlice(frames, low, high);
      forall k | FirstFrom(frames, IsAction, low, high, k) ensures Some(frames[k]) == action {
        FirstIsOne(frames, IsAction, low, high, k);
      }
    }
  }

  lemma FirstIsOne(frames: seq<Frame>, p: Frame -> bool, low: nat, high: nat, i: int)
    requires FirstFrom(frames, p, low, high, i)
    ensures FindFirst(frames[low..high], p) == Some(frames[i])
  {
    FirstInSlice(frames, p, low, high);
  }

  lemma CarriedOrNamedInSlice(frames: seq<Frame>, low: nat, high: nat)
    requires low <= high <= |frames|
    ensures CarriedOrNamed(frames, low, high, CarriedOperation(frames[low..high]))
  {
    LastInSlice(frames, HasOperation, low, high);
    FirstInSlice(frames, NamesOperation, low, high);
  }

  lemma OperationIs(frames: seq<Frame>, b: int, i: int)
    requires Anchored(frames, b, i)
    ensures OperationTold(frames, b, i + 1, Project(frames).operation)
  {
    AnchoredIff(frames, b, i);
    OperationOfSlice(frames, b, i + 1);
  }

  /** Some frame is called so. */
  predicate Called(frames: seq<Frame>, tag: Tag)
  {
    exists i :: 0 <= i < |frames| && FrameTag(frames[i]) == Some(tag)
  }

  /** The outermost frame is a reader's error that names its kind itself. */
  predicate NamesItsKind(frames: seq<Frame>)
  {
    && frames != [] && frames[0].tag == Some(FrondRuntimeReadError)
    && (frames[0].kind == Some("readiness") || frames[0].kind == Some("invalid") || frames[0].kind == Some("runtime"))
  }

  predicate CallsOperation(frames: seq<Frame>)
  {
    || Called(frames, ActionFailed) || Called(frames, DisposerFailed) || Called(frames, RefreshFailed)
    || Called(frames, ReleaseFailed) || Called(frames, UpdateNodeArgsFailed) || Called(frames, UnsafeUpdateNodeFailed)
  }

  predicate CallsReadiness(frames: seq<Frame>)
  {
    || Called(frames, AcquireFailed) || Called(frames, DependencyFailed) || Called(frames, DependencyFailures)
    || Called(frames, DependencyDefinitionFailures)
  }

  predicate CallsCycleOrKey(frames: seq<Frame>)
  {
    Called(frames, CycleDetected) || exists i :: 0 <= i < |frames| && IsKeyError(frames[i])
  }

  /** A reader's error names the kind; otherwise it is the first that applies of runtime, invalid, operation, live and
      readiness. */
  lemma KindIff(frames: seq<Frame>)
    ensures NamesItsKind(frames) ==> frames[0].kind == Some(KindName(KindOf(frames)))
    ensures !NamesItsKind(frames) ==>
      var kind := KindOf(frames);
      var runtime, invalid := Called(frames, FrondRuntimeUnavailable), CallsCycleOrKey(frames);
      var operation, live := CallsOperation(frames), Called(frames, LiveDeliveryFailed);
      var readiness := CallsReadiness(frames);
      && (kind.Runtime? <==> runtime) && (kind.Invalid? <==> invalid && !runtime)
      && (kind.Operation? <==> operation && !runtime && !invalid)
      && (kind.Live? <==> live && !runtime && !invalid && !operation)
      && (kind.Readiness? <==> readiness && !runtime && !invalid && !operation && !live)
  {
    AnyIff(frames);
  }

  lemma AnyIff(frames: seq<Frame>)
    ensures Any(frames, UnavailableRuntime) <==> Called(frames, FrondRuntimeUnavailable)
    ensures Any(frames, CycleOrKeyError) <==> CallsCycleOrKey(frames)
    ensures Any(frames, OperationFailure) <==> CallsOperation(frames)
    ensures Any(frames, LiveFailure) <==> Called(frames, LiveDeliveryFailed)
    ensures Any(frames, ReadinessFailure) <==> CallsReadiness(frames)
  {
    forall i, tag | 0 <= i < |frames| && FrameTag(frames[i]) == Some(tag) ensures Called(frames, tag) {
    }
    forall i | 0 <= i < |frames| ensures frames[i] in frames {
    }
  }

  /** The failing node's own frames and what they were caused by name the kind, and only when they name none does the
      whole chain. */
  lemma KindIs(frames: seq<Frame>, b: int, i: int)
    requires Anchored(frames, b, i)
    ensures Project(frames).kind
         == if KindOf(frames[b..]).Unexpected? then KindOf(frames) else KindOf(frames[b..])
  {
    AnchoredIff(frames, b, i);
  }

  /** The last node frame, or the last of Frond's frames when none carries a node. */
  predicate AnchorAt(frames: seq<Frame>, i: int)
  {
    LastAt(frames, IsNode, i) || (NoneFrom(frames, IsNode, 0, |frames|) && LastAt(frames, IsFrond, i))
  }

  /** The cause is told by the frames from `low` on, and the chain ends at frame `t`: the anchor itself when it
      carries a violated invariant, else the last frame. */
  predicate CauseFrom(frames: seq<Frame>, low: int, t: int)
  {
    if frames != [] && 0 <= t < |frames| && AnchorAt(frames, t) && frames[t].invariant_.Some? then low == |frames|
    else
      && t == |frames| - 1 && 0 <= low <= |frames|
      && (if low > 0 then AnchorAt(frames, low - 1) && frames[low - 1].invariant_.None?
          else NoneFrom(frames, IsFrond, 0, |frames|))
  }

  /** Where the search for the cause starts. */
  function Anchor(frames: seq<Frame>): (i: int)
    ensures -1 <= i < |frames|
  {
    if FailingIndex(frames) >= 0 then FailingIndex(frames) else LastIndex(frames, IsFrond)
  }

  lemma AnchorIff(frames: seq<Frame>, i: int)
    ensures AnchorAt(frames, i) <==> Anchor(frames) == i >= 0
    ensures NoneFrom(frames, IsFrond, 0, |frames|) <==> Anchor(frames) < 0
  {
    LastIndexIff(frames, IsNode, i);
    LastIndexIff(frames, IsFrond, i);
    var node, last := FailingIndex(frames), LastIndex(frames, IsFrond);
    assert node >= 0 ==> IsNode(frames[node]) && IsFrond(frames[node]);
    assert last >= 0 ==> IsFrond(frames[last]);
  }

  predicate EndsSo(frames: seq<Frame>, anchor: int, below: seq<Frame>, terminal: Frame)
    requires -1 <= anchor < |frames| && frames != []
  {
    if anchor >= 0 && frames[anchor].invariant_.Some? then below == [] && terminal == frames[anchor]
    else below == frames[anchor + 1..] && terminal == frames[|frames| - 1]
  }

  lemma ViewIs(frames: seq<Frame>)
    requires frames != []
    ensures EndsSo(frames, Anchor(frames), ViewOf(frames).below, ViewOf(frames).terminal)
  {
    if FailingIndex(frames) >= 0 {
      NodeViewEnds(frames, FailingIndex(frames), OwnStart(frames), NodeKind(frames));
    } else {
      BareViewEnds(frames, LastIndex(frames, IsFrond), ProjectionKind(frames, frames));
    }
  }

  lemma NodeViewEnds(frames: seq<Frame>, failing: nat, start: nat, kind: Kind)
    requires start <= failing < |frames|
    ensures var v := NodeView(frames, failing, start, kind); EndsSo(frames, failing, v.below, v.terminal)
  {
  }

  lemma BareViewEnds(frames: seq<Frame>, anchor: int, kind: Kind)
    requires -1 <= anchor < |frames| && frames != []
    ensures var v := BareViewAt(frames, anchor, kind); EndsSo(frames, anchor, v.below, v.terminal)
  {
  }

  lemma SlicedAt(frames: seq<Frame>, anchor: int, low: int, t: int, below: seq<Frame>, terminal: Frame)
    requires -1 <= anchor < |frames| && frames != [] && CausedAt(frames, anchor, low, t)
    requires EndsSo(frames, anchor, below, terminal)
    ensures 0 <= low <= |frames| && 0 <= t < |frames| && below == frames[low..|frames|] && terminal == frames[t]
  {
  }

  lemma CauseStarts(frames: seq<Frame>, low: int, t: int)
    requires frames != [] && CauseFrom(frames, low, t)
    ensures CausedAt(frames, Anchor(frames), low, t)
  {
    AnchorIff(frames, t);
    AnchorIff(frames, low - 1);
  }

  predicate CausedAt(frames: seq<Frame>, anchor: int, low: int, t: int)
    requires -1 <= anchor < |frames|
  {
    if anchor >= 0 && frames[anchor].invariant_.Some? then low == |frames| && t == anchor
    else low == anchor + 1 && t == |frames| - 1
  }

  lemma CauseIsBelow(frames: seq<Frame>, low: int, t: int)
    requires frames != [] && CauseFrom(frames, low, t)
    ensures 0 <= low <= |frames| && 0 <= t < |frames|
    ensures ViewOf(frames).below == frames[low..|frames|] && ViewOf(frames).terminal == frames[t]
  {
    CauseStarts(frames, low, t);
    ViewIs(frames);
    SlicedAt(frames, Anchor(frames), low, t, ViewOf(frames).below, ViewOf(frames).terminal);
  }

  function Tagged(f: Frame): Option<string> { if f.tag.None? then None else Some(TagName(f.tag.value)) }

  /** The type is that of the outermost app frame under the failing node; without one it is Frond's own frame at the
      end that gives it, and a chain that ends in anything else has none. */
  ghost predicate TypeTold(frames: seq<Frame>, low: int, t: int, causeType: string)
    requires 0 <= t < |frames|
  {
    if NoneFrom(frames, IsApp, low, |frames|) then
      if IsFrond(frames[t]) then Some(causeType) == Tagged(frames[t]) else causeType == "Error"
    else exists k :: FirstFrom(frames, IsApp, low, |frames|, k) && causeType == TypeOf(frames[k])
  }

  lemma CauseTypeIs(frames: seq<Frame>, low: int, t: int)
    requires frames != [] && CauseFrom(frames, low, t)
    ensures 0 <= t < |frames| && TypeTold(frames, low, t, Project(frames).causeType)
  {
    CauseIsBelow(frames, low, t);
    FirstInSlice(frames, IsApp, low, |frames|);
  }

  /** The message is that of the innermost frame that says something, under its type unless that is the cause's or the
      frame is a mere carrier; without one, Frond's own frame at the end speaks for itself. */
  ghost predicate MessageTold(frames: seq<Frame>, low: int, t: int, p: Projected)
    requires 0 <= t < |frames|
  {
    if NoneFrom(frames, HasCauseMessage, low, |frames|) then
      if !IsFrond(frames[t]) then p.causeMessage == ""
      else if frames[t].tag == Some(CycleDetected) then p.causeMessage == p.headline
      else if IsKeyError(frames[t]) then
        if frames[t].message.Some? then Some(p.causeMessage) == frames[t].message else p.causeMessage == p.headline
      else if frames[t].invariant_.Some? then Some(p.causeMessage) == frames[t].invariant_
      else Bared(frames[t], p.causeMessage)
    else
      exists k :: LastFrom(frames, HasCauseMessage, low, |frames|, k)
        && Worded(frames[k], p.causeType, p.causeMessage)
  }

  predicate Worded(f: Frame, causeType: string, message: string)
  {
    && f.message.Some?
    && message == (if ClassOf(f).Carrier? || TypeOf(f) == causeType then "" else TypeOf(f) + ": ") + f.message.value
  }

  /** The frame's message without the node's tag in front of it. */
  predicate Bared(f: Frame, message: string)
  {
    var whole := if f.message.Some? then f.message.value else "";
    if f.nodeTag.Some? && f.nodeTag.value + ": " <= whole then whole == f.nodeTag.value + ": " + message
    else message == whole
  }

  lemma CauseMessageIs(frames: seq<Frame>, low: int, t: int)
    requires frames != [] && CauseFrom(frames, low, t)
    ensures 0 <= t < |frames| && MessageTold(frames, low, t, Project(frames))
  {
    CauseIsBelow(frames, low, t);
    LastInSlice(frames, HasCauseMessage, low, |frames|);
  }

  /** An app's own error or thrown value goes by its tag, else by its name, else by what was thrown. */
  predicate AppTyped(f: Frame, causeType: string)
  {
    match f.tag
    case Some(tag) => tag == AppTag(causeType) && causeType != "UnknownError"
    case None =>
      match f.name
      case Some(name) =>
        name == AppTag(causeType) && causeType != "" && causeType != "Error" && causeType != "UnknownError"
      case None => causeType == f.thrownType
  }

  /** A failed acquire of a node with this tag, caused by an app's own error of this type and message. */
  predicate FailedAcquire(acquire: Frame, app: Frame, tag: string, message: string, causeType: string)
  {
    && acquire.tag == Some(AcquireFailed) && acquire.nodeId.Some? && acquire.nodeTag == Some(tag)
    && acquire.operation.None? && acquire.invariant_.None?
    && AppTyped(app, causeType) && app.message == Some(message) && !IsBlank(message)
  }

  /** It is reported under the node's tag, with the app error's message, and grouped by tag and type; by the masked
      message as well if the type says nothing. */
  lemma FailedAcquireReport(acquire: Frame, app: Frame, tag: string, message: string, causeType: string,
                            mask: string -> string)
    requires FailedAcquire(acquire, app, tag, message, causeType)
    ensures ReportMessage(Project([acquire, app])) == "[" + tag + " acquire] " + message
    ensures ReportFingerprint(Project([acquire, app]), mask)
         == ["frond", "readiness", tag, "acquire", causeType]
            + if (causeType == "Error" || "Thrown" <= causeType) && mask(message) != "" then [mask(message)] else []
  {
    FailedAcquireCause(acquire, app, tag, message, causeType);
    FailedAcquireNode(acquire, app, tag, message, causeType);
    ReportOf(Project([acquire, app]), tag, message, causeType, mask);
  }

  lemma ReportOf(p: Projected, tag: string, message: string, causeType: string, mask: string -> string)
    requires p.kind.Readiness? && p.causeType == causeType && p.causeMessage == message && message != ""
    requires p.failingNode.Some? && p.failingNode.value.tag == tag && p.operation == Some("acquire")
    ensures ReportMessage(p) == "[" + tag + " acquire] " + message
    ensures ReportFingerprint(p, mask)
         == ["frond", "readiness", tag, "acquire", causeType]
            + if (causeType == "Error" || "Thrown" <= causeType) && mask(message) != "" then [mask(message)] else []
  {
    assert "[" + (tag + " " + "acquire") + "] " + message == "[" + tag + " acquire] " + message;
  }

  lemma FailedAcquireCause(acquire: Frame, app: Frame, tag: string, message: string, causeType: string)
    requires FailedAcquire(acquire, app, tag, message, causeType)
    ensures Project([acquire, app]).causeType == causeType && Project([acquire, app]).causeMessage == message
  {
    var frames := [acquire, app];
    AppIsApp(app, causeType);
    assert LastAt(frames, IsNode, 0);
    CauseTypeIs(frames, 1, 1);
    assert FirstFrom(frames, IsApp, 1, 2, 1);
    CauseMessageIs(frames, 1, 1);
    assert LastFrom(frames, HasCauseMessage, 1, 2, 1);
  }

  lemma FailedAcquireNode(acquire: Frame, app: Frame, tag: string, message: string, causeType: string)
    requires FailedAcquire(acquire, app, tag, message, causeType)
    ensures var p := Project([acquire, app]);
      p.failingNode.Some? && p.failingNode.value.tag == tag && p.operation == Some("acquire") && p.kind.Readiness?
  {
    var frames := [acquire, app];
    AppIsApp(app, causeType);
    assert Anchored(frames, 0, 0);
    AnchoredIff(frames, 0, 0);
    AcquireKind(acquire, app);
    OperationIs(frames, 0, 0);
    assert FirstFrom(frames, NamesOperation, 0, 1, 0);
  }

  lemma AppIsApp(f: Frame, causeType: string)
    requires AppTyped(f, causeType)
    ensures IsApp(f) && TypeOf(f) == causeType && !IsNode(f) && !IsFrond(f)
    ensures forall g: Group :: !InGroup(f, g)
  {
  }

  lemma AcquireKind(acquire: Frame, app: Frame)
    requires acquire.tag == Some(AcquireFailed) && forall g: Group :: !InGroup(app, g)
    ensures KindOf([acquire, app]).Readiness? && KindOf([acquire, app][0..]).Readiness?
  {
    assert [acquire, app][0..] == [acquire, app];
    forall g: Group ensures Any([acquire, app], g) <==> g.ReadinessFailure? {
      assert InGroup(acquire, g) <==> g.ReadinessFailure?;
      assert acquire in [acquire, app];
    }
  }

  /** An error that only carries another: named `Error` or `UnknownError`, without a tag of its own. */
  predicate IsCarrier(f: Frame)
  {
    && f.isError && (f.name == Some(AppTag("Error")) || f.name == Some(AppTag("UnknownError")))
    && (f.tag.None? || f.tag == Some(AppTag("UnknownError")))
  }

  lemma CarrierTells(f: Frame)
    requires IsCarrier(f)
    ensures !IsFrond(f) && !IsNode(f) && !IsApp(f) && ClassOf(f).Carrier? && forall g: Group :: !InGroup(f, g)
  {
  }

  /** The frames with one more between those before `at` and the rest. */
  function With(frames: seq<Frame>, at: nat, f: Frame): seq<Frame>
    requires at <= |frames|
  {
    frames[..at] + [f] + frames[at..]
  }

  lemma AnyWithCarrier(frames: seq<Frame>, at: nat, f: Frame, g: Group)
    requires at <= |frames| && IsCarrier(f)
    ensures Any(With(frames, at, f), g) == Any(frames, g)
  {
    CarrierTells(f);
    forall x ensures x in With(frames, at, f) <==> x in frames || x == f {
      assert frames == frames[..at] + frames[at..];
    }
  }

  lemma KindWithCarrier(frames: seq<Frame>, at: nat, f: Frame)
    requires 0 < at <= |frames| && IsCarrier(f)
    ensures KindOf(With(frames, at, f)) == KindOf(frames)
  {
    forall g: Group ensures Any(With(frames, at, f), g) == Any(frames, g) {
      AnyWithCarrier(frames, at, f, g);
    }
    assert With(frames, at, f)[0] == frames[0];
  }

  lemma AnchoredWithCarrier(frames: seq<Frame>, at: nat, f: Frame, b: nat, i: nat)
    requires i < at <= |frames| && IsCarrier(f) && Anchored(frames, b, i)
    ensures Anchored(With(frames, at, f), b, i)
  {
    CarrierTells(f);
    var all := With(frames, at, f);
    forall k | 0 <= k < |all| ensures all[k] == if k < at then frames[k] else if k == at then f else frames[k - 1] {
    }
    forall k | b <= k <= i ensures Follows(all, k, frames[i].nodeId) == Follows(frames, k, frames[i].nodeId) {
    }
  }

  lemma FirstWithCarrier(frames: seq<Frame>, at: nat, f: Frame, p: Frame -> bool, low: nat)
    requires low <= at <= |frames| && !p(f)
    ensures FindFirst(With(frames, at, f)[low..], p) == FindFirst(frames[low..], p)
  {
    var all := With(frames, at, f);
    forall k | 0 <= k < |all| ensures all[k] == if k < at then frames[k] else if k == at then f else frames[k - 1] {
    }
    var i, j := FirstIndex(frames[low..], p), FirstIndex(all[low..], p);
    assert i < |frames[low..]| ==> p(all[low..][if low + i < at then i else i + 1]);
    assert j < |all[low..]| ==> low + j != at && p(frames[low..][if low + j < at then j else j - 1]);
  }

  lemma SlicesWithCarrier(frames: seq<Frame>, at: nat, f: Frame, i: nat, b: nat)
    requires b <= i < at < |frames|
    ensures var all := With(frames, at, f);
      && all[b..i + 1] == frames[b..i + 1] && all[b] == frames[b] && all[i] == frames[i]
      && all[|all| - 1] == frames[|frames| - 1]
  {
  }

  lemma NodeViewWithCarrier(frames: seq<Frame>, at: nat, f: Frame, i: nat, b: nat, kind: Kind)
    requires b <= i < at < |frames| && IsCarrier(f)
    ensures var v, w := NodeView(frames, i, b, kind), NodeView(With(frames, at, f), i, b, kind);
      w == v.(below := w.below) && FindFirst(w.below, IsApp) == FindFirst(v.below, IsApp)
  {
    CarrierTells(f);
    FirstWithCarrier(frames, at, f, IsApp, i + 1);
    SlicesWithCarrier(frames, at, f, i, b);
    BelowOf(frames, i, b, kind);
    BelowOf(With(frames, at, f), i, b, kind);
  }

  lemma BelowOf(frames: seq<Frame>, i: nat, b: nat, kind: Kind)
    requires b <= i < |frames|
    ensures FindFirst(NodeView(frames, i, b, kind).below, IsApp)
         == if frames[i].invariant_.Some? then None else FindFirst(frames[i + 1..], IsApp)
  {
  }

  lemma NodeKindWithCarrier(frames: seq<Frame>, at: nat, f: Frame, b: nat)
    requires b < at < |frames| && IsCarrier(f)
    ensures ProjectionKind(With(frames, at, f)[b..], With(frames, at, f)) == ProjectionKind(frames[b..], frames)
  {
    KindWithCarrier(frames, at, f);
    KindWithCarrier(frames[b..], at - b, f);
    assert With(frames, at, f)[b..] == With(frames[b..], at - b, f);
  }

  /** What is said of the cause's class, as opposed to its message. */
  predicate ClassifiedAlike(p: Projected, q: Projected)
  {
    && p.failingNode == q.failingNode && p.operation == q.operation && p.failingFailure == q.failingFailure
    && p.kind == q.kind && p.causeType == q.causeType
  }

  lemma SameButBelow(v: View, w: View, raw: Frame, other: Frame)
    requires v.failing.Some? ==> IsNode(v.failing.value)
    requires w == v.(below := w.below) && FindFirst(w.below, IsApp) == FindFirst(v.below, IsApp)
    ensures ClassifiedAlike(Present(v, raw), Present(w, other))
  {
  }

  lemma ViewWithCarrier(frames: seq<Frame>, at: nat, f: Frame)
    requires FailingIndex(frames) >= 0 && FailingIndex(frames) < at < |frames| && IsCarrier(f)
    ensures FailingIndex(With(frames, at, f)) == FailingIndex(frames)
    ensures OwnStart(With(frames, at, f)) == OwnStart(frames)
    ensures var v, w := ViewOf(frames), ViewOf(With(frames, at, f));
      w == v.(below := w.below) && FindFirst(w.below, IsApp) == FindFirst(v.below, IsApp)
  {
    var i, b, all := FailingIndex(frames), OwnStart(frames), With(frames, at, f);
    AnchoredIff(frames, b, i);
    AnchoredWithCarrier(frames, at, f, b, i);
    AnchoredIff(all, b, i);
    NodeKindWithCarrier(frames, at, f, b);
    NodeViewWithCarrier(frames, at, f, i, b, NodeKind(frames));
  }

  /** Below the failing node a carrier may say what happened but never of what kind: put between the frames there it
      changes neither the node, nor its operation, nor the kind, nor the type. */
  lemma CarriersNeverClassify(frames: seq<Frame>, at: nat, f: Frame)
    requires FailingIndex(frames) >= 0 && FailingIndex(frames) < at < |frames| && IsCarrier(f)
    ensures ClassifiedAlike(Project(frames), Project(With(frames, at, f)))
  {
    ViewWithCarrier(frames, at, f);
    SameButBelow(ViewOf(frames), ViewOf(With(frames, at, f)), frames[0], With(frames, at, f)[0]);
  }

  /** No message, or only spaces, or what Effect says of any unknown error. */
  ghost predicate SaysNothing(f: Frame)
  {
    f.message.None? || IsBlank(f.message.value)
    || exists where :: f.message.value == "An error occurred in Effect." + where && IsWord(where)
  }

  predicate IsWord(s: string) { s != "" && forall c :: c in s ==> IsLetter(c) }

  lemma NothingToSay(f: Frame)
    requires IsCarrier(f) && SaysNothing(f)
    ensures !HasCauseMessage(f)
  {
    CarrierTells(f);
    if f.message.Some? && !IsBlank(f.message.value) {
      var where :| f.message.value == "An error occurred in Effect." + where && IsWord(where);
      assert f.message.value[|BOILERPLATE_PREFIX|..] == where;
    }
  }

  lemma LastWithCarrier(frames: seq<Frame>, at: nat, f: Frame, p: Frame -> bool, low: nat)
    requires low <= at <= |frames| && !p(f)
    ensures FindLast(With(frames, at, f)[low..], p) == FindLast(frames[low..], p)
  {
    var all := With(frames, at, f);
    forall k | 0 <= k < |all| ensures all[k] == if k < at then frames[k] else if k == at then f else frames[k - 1] {
    }
    var i, j := LastIndex(frames[low..], p), LastIndex(all[low..], p);
    assert i >= 0 ==> p(all[low..][if low + i < at then i else i + 1]);
    assert j >= 0 ==> low + j != at && p(frames[low..][if low + j < at then j else j - 1]);
  }

  /** A carrier that has nothing to say changes nothing at all. */
  lemma SilentCarriersChangeNothing(frames: seq<Frame>, at: nat, f: Frame)
    requires FailingIndex(frames) >= 0 && FailingIndex(frames) < at < |frames| && IsCarrier(f) && SaysNothing(f)
    ensures SameFailure(Project(frames), Project(With(frames, at, f)))
  {
    ViewWithCarrier(frames, at, f);
    NothingToSay(f);
    SaidWithCarrier(frames, at, f);
    assert With(frames, at, f)[0] == frames[0];
    SameSaidBelow(ViewOf(frames), ViewOf(With(frames, at, f)), frames[0]);
  }

  lemma SaidWithCarrier(frames: seq<Frame>, at: nat, f: Frame)
    requires FailingIndex(frames) >= 0 && FailingIndex(frames) < at < |frames| && !HasCauseMessage(f)
    requires FailingIndex(With(frames, at, f)) == FailingIndex(frames)
    requires OwnStart(With(frames, at, f)) == OwnStart(frames)
    ensures FindLast(ViewOf(With(frames, at, f)).below, HasCauseMessage)
         == FindLast(ViewOf(frames).below, HasCauseMessage)
  {
    var i, b, all := FailingIndex(frames), OwnStart(frames), With(frames, at, f);
    LastWithCarrier(frames, at, f, HasCauseMessage, i + 1);
    SaidBelow(frames, i, b, NodeKind(frames));
    SaidBelow(all, i, b, NodeKind(all));
  }

  lemma SaidBelow(frames: seq<Frame>, i: nat, b: nat, kind: Kind)
    requires b <= i < |frames|
    ensures FindLast(NodeView(frames, i, b, kind).below, HasCauseMessage)
         == if frames[i].invariant_.Some? then None else FindLast(frames[i + 1..], HasCauseMessage)
  {
  }

  lemma SameSaidBelow(v: View, w: View, raw: Frame)
    requires v.failing.Some? ==> IsNode(v.failing.value)
    requires w == v.(below := w.below) && FindFirst(w.below, IsApp) == FindFirst(v.below, IsApp)
    requires FindLast(w.below, HasCauseMessage) == FindLast(v.below, HasCauseMessage)
    ensures SameFailure(Present(v, raw), Present(w, raw))
  {
  }

  // ---------------------------------------------------------------- ids are not reported

  /** The same frame but for the id of its node. */
  predicate SameShape(f: Frame, g: Frame)
  {
    g == f.(nodeId := g.nodeId) && (g.nodeId.Some? <==> f.nodeId.Some?)
  }

  predicate SameShapes(frames: seq<Frame>, other: seq<Frame>)
  {
    |frames| == |other| && forall i :: 0 <= i < |frames| ==> SameShape(frames[i], other[i])
  }

  /** The node ids were replaced by others, equal ids by equal ones and different ids by different ones. */
  predicate Renamed(frames: seq<Frame>, other: seq<Frame>)
  {
    && SameShapes(frames, other)
    && forall i, j :: 0 <= i < |frames| && 0 <= j < |frames| ==>
         (frames[i].nodeId == frames[j].nodeId <==> other[i].nodeId == other[j].nodeId)
  }

  lemma ShapeTells(f: Frame, g: Frame)
    requires SameShape(f, g)
    ensures ClassOf(f) == ClassOf(g) && TypeOf(f) == TypeOf(g) && NamedBy(f) == NamedBy(g)
    ensures IsNode(f) == IsNode(g) && HasCauseMessage(f) == HasCauseMessage(g)
    ensures forall group :: InGroup(f, group) == InGroup(g, group)
  {
  }

  predicate ReadsAlike(frames: seq<Frame>, other: seq<Frame>, p: Frame -> bool)
  {
    |frames| == |other| && forall i :: 0 <= i < |frames| ==> p(frames[i]) == p(other[i])
  }

  lemma FoundAlike(frames: seq<Frame>, other: seq<Frame>, p: Frame -> bool)
    requires SameShapes(frames, other) && ReadsAlike(frames, other, p)
    ensures LastIndex(frames, p) == LastIndex(other, p) && FirstIndex(frames, p) == FirstIndex(other, p)
  {
    var i, j := LastIndex(frames, p), LastIndex(other, p);
    var k, l := FirstIndex(frames, p), FirstIndex(other, p);
    assert (i >= 0 ==> p(frames[i]) && p(other[i])) && (j >= 0 ==> p(frames[j]) && p(other[j]));
    assert (k < |frames| ==> p(frames[k]) && p(other[k])) && (l < |frames| ==> p(frames[l]) && p(other[l]));
  }

  predicate SameShapeIfAny(f: Option<Frame>, g: Option<Frame>)
  {
    match (f, g)
    case (Some(x), Some(y)) => SameShape(x, y)
    case (None, None) => true
    case _ => false
  }

  lemma FoundShapes(frames: seq<Frame>, other: seq<Frame>, p: Frame -> bool)
    requires SameShapes(frames, other) && ReadsAlike(frames, other, p)
    ensures SameShapeIfAny(FindFirst(frames, p), FindFirst(other, p))
    ensures SameShapeIfAny(FindLast(frames, p), FindLast(other, p))
  {
    FoundAlike(frames, other, p);
  }

  lemma AllReadAlike(frames: seq<Frame>, other: seq<Frame>)
    requires SameShapes(frames, other)
    ensures ReadsAlike(frames, other, IsNode) && ReadsAlike(frames, other, IsFrond) && ReadsAlike(frames, other, IsApp)
    ensures ReadsAlike(frames, other, HasCauseMessage) && ReadsAlike(frames, other, IsAction)
    ensures ReadsAlike(frames, other, HasOperation) && ReadsAlike(frames, other, NamesOperation)
  {
    forall i | 0 <= i < |frames|
      ensures ClassOf(frames[i]) == ClassOf(other[i]) && NamedBy(frames[i]) == NamedBy(other[i])
      ensures IsNode(frames[i]) == IsNode(other[i]) && HasCauseMessage(frames[i]) == HasCauseMessage(other[i])
    {
      ShapeTells(frames[i], other[i]);
    }
  }

  lemma ActionForgetsIds(block: seq<Frame>, other: seq<Frame>)
    requires SameShapes(block, other)
    ensures SameShapeIfAny(FindFirst(block, IsAction), FindFirst(other, IsAction))
  {
    AllReadAlike(block, other);
    FoundShapes(block, other, IsAction);
  }

  lemma CarriedForgetsIds(block: seq<Frame>, other: seq<Frame>)
    requires SameShapes(block, other)
    ensures CarriedOperation(block) == CarriedOperation(other)
  {
    AllReadAlike(block, other);
    FoundShapes(block, other, HasOperation);
    FoundShapes(block, other, NamesOperation);
  }

  lemma OperationForgetsIds(block: seq<Frame>, other: seq<Frame>)
    requires SameShapes(block, other)
    ensures OperationOfBlock(block) == OperationOfBlock(other)
  {
    ActionForgetsIds(block, other);
    CarriedForgetsIds(block, other);
  }

  lemma AnyForgetsIds(frames: seq<Frame>, other: seq<Frame>, g: Group)
    requires SameShapes(frames, other)
    ensures Any(frames, g) == Any(other, g)
  {
    forall i | 0 <= i < |frames|
      ensures InGroup(frames[i], g) == InGroup(other[i], g) && frames[i] in frames && other[i] in other
    {
      ShapeTells(frames[i], other[i]);
    }
  }

  lemma KindForgetsIds(frames: seq<Frame>, other: seq<Frame>)
    requires SameShapes(frames, other)
    ensures KindOf(frames) == KindOf(other)
  {
    forall g: Group ensures Any(frames, g) == Any(other, g) {
      AnyForgetsIds(frames, other, g);
    }
  }

  lemma AnchoredAlike(frames: seq<Frame>, other: seq<Frame>)
    requires Renamed(frames, other) && frames != []
    ensures FailingIndex(frames) == FailingIndex(other)
    ensures FailingIndex(frames) >= 0 ==> OwnStart(frames) == OwnStart(other)
  {
    AllReadAlike(frames, other);
    FoundAlike(frames, other, IsNode);
    var i := FailingIndex(frames);
    if i >= 0 {
      BlockAlike(frames, other, OwnStart(frames), i);
      AnchoredIff(frames, OwnStart(frames), i);
      AnchoredIff(other, OwnStart(frames), i);
      AnchoredIff(other, OwnStart(other), i);
    }
  }

  lemma BlockAlike(frames: seq<Frame>, other: seq<Frame>, b: nat, i: nat)
    requires Renamed(frames, other) && i < |frames|
    ensures BlockAt(frames, b, i) <==> BlockAt(other, b, i)
  {
    AllReadAlike(frames, other);
    forall k ensures Follows(frames, k, frames[i].nodeId) == Follows(other, k, other[i].nodeId) {
      if 0 < k < |frames| {
        assert IsFrond(frames[k - 1]) == IsFrond(other[k - 1]);
      }
    }
  }

  predicate ViewedAlike(v: View, w: View)
  {
    && v.kind == w.kind && SameShape(v.terminal, w.terminal) && SameShapes(v.below, w.below)
    && SameShapeIfAny(v.failing, w.failing) && SameShapes(v.block, w.block) && SameShape(v.outermost, w.outermost)
  }

  lemma ViewForgetsIds(frames: seq<Frame>, other: seq<Frame>)
    requires Renamed(frames, other) && frames != []
    ensures ViewedAlike(ViewOf(frames), ViewOf(other))
  {
    AnchoredAlike(frames, other);
    KindForgetsIds(frames, other);
    if FailingIndex(frames) >= 0 {
      KindForgetsIds(frames[OwnStart(frames)..], other[OwnStart(other)..]);
      NodeViewAlike(frames, other, FailingIndex(frames), OwnStart(frames), NodeKind(frames));
    } else {
      BareViewAlike(frames, other);
    }
  }

  lemma NodeViewAlike(frames: seq<Frame>, other: seq<Frame>, failing: nat, start: nat, kind: Kind)
    requires SameShapes(frames, other) && start <= failing < |frames|
    ensures ViewedAlike(NodeView(frames, failing, start, kind), NodeView(other, failing, start, kind))
  {
  }

  lemma BareViewAlike(frames: seq<Frame>, other: seq<Frame>)
    requires SameShapes(frames, other) && frames != []
    ensures ViewedAlike(BareView(frames), BareView(other))
  {
    AllReadAlike(frames, other);
    FoundAlike(frames, other, IsFrond);
    KindForgetsIds(frames, other);
    BareViewAtAlike(frames, other, LastIndex(frames, IsFrond), ProjectionKind(frames, frames));
  }

  lemma BareViewAtAlike(frames: seq<Frame>, other: seq<Frame>, anchor: int, kind: Kind)
    requires SameShapes(frames, other) && frames != [] && -1 <= anchor < |frames|
    ensures ViewedAlike(BareViewAt(frames, anchor, kind), BareViewAt(other, anchor, kind))
  {
    TailsAlike(frames, other, anchor + 1);
    assert SameShape(frames[|frames| - 1], other[|other| - 1]) && SameShape(frames[0], other[0]);
    assert anchor >= 0 ==> SameShape(frames[anchor], other[anchor]);
  }

  lemma TailsAlike(frames: seq<Frame>, other: seq<Frame>, low: nat)
    requires SameShapes(frames, other) && low <= |frames|
    ensures SameShapes(frames[low..], other[low..])
  {
    forall i | 0 <= i < |frames| - low ensures SameShape(frames[low..][i], other[low..][i]) {
      assert frames[low..][i] == frames[low + i] && other[low..][i] == other[low + i];
    }
  }

  lemma CauseTypeForgetsIds(v: View, w: View)
    requires ViewedAlike(v, w)
    ensures CauseType(v) == CauseType(w)
  {
    AllReadAlike(v.below, w.below);
    FoundShapes(v.below, w.below, IsApp);
    ShapeTells(v.terminal, w.terminal);
    var f, g := FindFirst(v.below, IsApp), FindFirst(w.below, IsApp);
    if f.Some? {
      ShapeTells(f.value, g.value);
    }
  }

  lemma MessageForgetsIds(source: Option<Frame>, given: Option<Frame>, causeType: string, terminal: Frame, end: Frame,
                          headline: string)
    requires SameShapeIfAny(source, given) && SameShape(terminal, end)
    ensures CauseMessage(source, causeType, terminal, headline) == CauseMessage(given, causeType, end, headline)
  {
    ShapeTells(terminal, end);
    if source.Some? {
      ShapeTells(source.value, given.value);
    }
  }

  /** What a projection says but for the id of the failing node. */
  predicate SaysAlike(p: Projected, q: Projected)
  {
    && p.headline == q.headline && p.kind == q.kind && p.causeType == q.causeType && p.causeMessage == q.causeMessage
    && p.operation == q.operation && p.failingFailure == q.failingFailure
    && (p.failingNode.Some? <==> q.failingNode.Some?)
    && (p.failingNode.Some? ==> p.failingNode.value.tag == q.failingNode.value.tag)
  }

  lemma SourceForgetsIds(below: seq<Frame>, other: seq<Frame>)
    requires SameShapes(below, other)
    ensures SameShapeIfAny(FindLast(below, HasCauseMessage), FindLast(other, HasCauseMessage))
  {
    AllReadAlike(below, other);
    FoundShapes(below, other, HasCauseMessage);
  }

  lemma HeadlineForgetsIds(kind: Kind, terminal: Frame, end: Frame, causeType: string, raw: Frame, other: Frame)
    requires SameShape(terminal, end) && SameShape(raw, other)
    ensures Headline(kind, terminal, causeType, raw) == Headline(kind, end, causeType, other)
  {
  }

  lemma PresentForgetsIds(v: View, w: View, raw: Frame, other: Frame)
    requires ViewedAlike(v, w) && SameShape(raw, other) && (v.failing.Some? ==> IsNode(v.failing.value))
    requires w.failing.Some? ==> IsNode(w.failing.value)
    ensures SaysAlike(Present(v, raw), Present(w, other))
  {
    var causeType := CauseType(v);
    CauseTypeForgetsIds(v, w);
    HeadlineForgetsIds(v.kind, v.terminal, w.terminal, causeType, raw, other);
    SourceForgetsIds(v.below, w.below);
    MessageForgetsIds(FindLast(v.below, HasCauseMessage), FindLast(w.below, HasCauseMessage), causeType, v.terminal,
                      w.terminal, Headline(v.kind, v.terminal, causeType, raw));
    OperationForgetsIds(v.block, w.block);
  }

  lemma SaidAlikeReportedAlike(p: Projected, q: Projected, mask: string -> string)
    requires SaysAlike(p, q)
    ensures ReportMessage(p) == ReportMessage(q) && ReportFingerprint(p, mask) == ReportFingerprint(q, mask)
  {
  }

  /** Failures that differ in node ids alone are reported with one message and one fingerprint. */
  lemma ReportsForgetIds(frames: seq<Frame>, other: seq<Frame>, mask: string -> string)
    requires Renamed(frames, other) && frames != []
    ensures ReportMessage(Project(frames)) == ReportMessage(Project(other))
    ensures ReportFingerprint(Project(frames), mask) == ReportFingerprint(Project(other), mask)
  {
    ViewForgetsIds(frames, other);
    PresentForgetsIds(ViewOf(frames), ViewOf(other), frames[0], other[0]);
    SaidAlikeReportedAlike(Project(frames), Project(other), mask);
  }

  // ---------------------------------------------------------------- wrappers on top

  lemma {:induction false} LastIndexUnder(wrappers: seq<Frame>, frames: seq<Frame>, p: Frame -> bool)
    requires LastIndex(frames, p) >= 0
    ensures LastIndex(wrappers + frames, p) == |wrappers| + LastIndex(frames, p)
  {
    var all := wrappers + frames;
    if !p(frames[|frames| - 1]) {
      assert all[..|all| - 1] == wrappers + frames[..|frames| - 1];
      LastIndexUnder(wrappers, frames[..|frames| - 1], p);
    }
  }

  /** The innermost wrapper would join the failing block. */
  predicate Joins(wrappers: seq<Frame>, frames: seq<Frame>, nodeId: Option<string>)
    requires frames != []
  {
    wrappers != [] && !frames[0].reported && Extends(wrappers[|wrappers| - 1], nodeId)
  }

  lemma {:induction false} BlockStartUnder(wrappers: seq<Frame>, frames: seq<Frame>, start: nat, nodeId: Option<string>)
    requires start < |frames|
    ensures BlockStart(wrappers + frames, |wrappers| + start, nodeId) == |wrappers| + BlockStart(frames, start, nodeId)
       <==> BlockStart(frames, start, nodeId) > 0 || !Joins(wrappers, frames, nodeId)
    decreases start
  {
    var all := wrappers + frames;
    if start > 0 {
      assert all[|wrappers| + start - 1] == frames[start - 1];
      if !frames[start].reported && Extends(frames[start - 1], nodeId) {
        BlockStartUnder(wrappers, frames, start - 1, nodeId);
      }
    } else if wrappers != [] {
      assert all[|wrappers| - 1] == wrappers[|wrappers| - 1];
    }
  }

  /** What reports are grouped by. */
  predicate SameFailure(p: Projected, q: Projected)
  {
    && p.kind == q.kind && p.causeType == q.causeType && p.causeMessage == q.causeMessage
    && p.failingNode == q.failingNode && p.operation == q.operation && p.failingFailure == q.failingFailure
  }

  predicate KeepsBlock(wrappers: seq<Frame>, frames: seq<Frame>)
    requires FailingIndex(frames) >= 0
  {
    OwnStart(frames) > 0 || !Joins(wrappers, frames, frames[FailingIndex(frames)].nodeId)
  }

  /** The failing failure stays the same object exactly when the innermost wrapper does not join the block. */
  lemma BlockKeptIff(wrappers: seq<Frame>, frames: seq<Frame>)
    requires FailingIndex(frames) >= 0
    ensures FailingIndex(wrappers + frames) == |wrappers| + FailingIndex(frames)
    ensures OwnStart(wrappers + frames) == |wrappers| + OwnStart(frames) <==> KeepsBlock(wrappers, frames)
  {
    LastIndexUnder(wrappers, frames, IsNode);
    assert (wrappers + frames)[|wrappers| + FailingIndex(frames)] == frames[FailingIndex(frames)];
    BlockStartUnder(wrappers, frames, FailingIndex(frames), frames[FailingIndex(frames)].nodeId);
  }

  /** Of the requester's own value only the headline can depend. */
  lemma RequesterShapesHeadlineOnly(v: View, raw: Frame, other: Frame)
    requires v.failing.Some? ==> IsNode(v.failing.value)
    ensures SameFailure(Present(v, raw), Present(v, other))
  {
  }

  lemma SlicesUnder(wrappers: seq<Frame>, frames: seq<Frame>, b: nat, i: nat)
    requires b <= i < |frames|
    ensures (wrappers + frames)[|wrappers| + b..] == frames[b..]
    ensures (wrappers + frames)[|wrappers| + b..|wrappers| + i + 1] == frames[b..i + 1]
    ensures (wrappers + frames)[|wrappers| + i + 1..] == frames[i + 1..]
  {
  }

  lemma NodeViewUnder(wrappers: seq<Frame>, frames: seq<Frame>, failing: nat, start: nat, kind: Kind)
    requires start <= failing < |frames|
    ensures NodeView(wrappers + frames, |wrappers| + failing, |wrappers| + start, kind)
         == NodeView(frames, failing, start, kind)
  {
    SlicesUnder(wrappers, frames, start, failing);
  }

  /** The failing node's own frames name a kind, or the whole chain names the one their own chain does. */
  predicate KindAgrees(wrappers: seq<Frame>, frames: seq<Frame>)
    requires FailingIndex(frames) >= 0
  {
    !KindOf(frames[OwnStart(frames)..]).Unexpected? || KindOf(wrappers + frames) == KindOf(frames)
  }

  /** The kind survives exactly when it is named by the failing node's own frames, or the wrappers name no other. */
  lemma WrappersKeepTheKind(wrappers: seq<Frame>, frames: seq<Frame>)
    requires FailingIndex(frames) >= 0 && KeepsBlock(wrappers, frames)
    ensures FailingIndex(wrappers + frames) >= 0
    ensures NodeKind(wrappers + frames) == NodeKind(frames) <==> KindAgrees(wrappers, frames)
  {
    BlockKeptIff(wrappers, frames);
    SlicesUnder(wrappers, frames, OwnStart(frames), FailingIndex(frames));
    KindNamed(frames);
    KindNamed(wrappers + frames);
    NamedAlike(KindOf(frames[OwnStart(frames)..]), KindOf(wrappers + frames), KindOf(frames));
  }

  lemma KindNamed(frames: seq<Frame>)
    requires FailingIndex(frames) >= 0
    ensures NodeKind(frames) == Named(KindOf(frames[OwnStart(frames)..]), KindOf(frames))
  {
  }

  lemma NamedAlike(own: Kind, a: Kind, b: Kind)
    ensures Named(own, a) == Named(own, b) <==> !own.Unexpected? || a == b
  {
  }

  /** Whatever the wrappers are, as long as they do not join the failing block they can change nothing but the kind. */
  lemma WrappersKeepTheView(wrappers: seq<Frame>, frames: seq<Frame>)
    requires FailingIndex(frames) >= 0 && KeepsBlock(wrappers, frames)
    ensures FailingIndex(wrappers + frames) >= 0
    ensures ViewOf(wrappers + frames) == ViewOf(frames).(kind := NodeKind(wrappers + frames))
  {
    BlockKeptIff(wrappers, frames);
    var all, i, b := wrappers + frames, FailingIndex(frames), OwnStart(frames);
    assert ViewOf(all) == NodeView(all, |wrappers| + i, |wrappers| + b, NodeKind(all));
    NodeViewUnder(wrappers, frames, i, b, NodeKind(all));
    KindAside(frames, i, b, NodeKind(frames), NodeKind(all));
  }

  lemma KindAside(frames: seq<Frame>, failing: nat, start: nat, kind: Kind, other: Kind)
    requires start <= failing < |frames|
    ensures NodeView(frames, failing, start, other) == NodeView(frames, failing, start, kind).(kind := other)
  {
  }

  /** The kind and the requester's own value show in the kind and the headline only. */
  lemma OnlyTheKind(v: View, kind: Kind, raw: Frame, other: Frame)
    requires v.failing.Some? ==> IsNode(v.failing.value)
    ensures SameButKind(Present(v.(kind := kind), raw), Present(v, other))
  {
  }

  predicate SameButKind(p: Projected, q: Projected) { SameFailure(p.(kind := q.kind), q) }

  /** Wrapped by any number of frames that do not join the failing block, a failure keeps all that its reports are
      grouped by, up to the kind; and the kind too exactly when the failing node's own frames name one or the
      wrappers name no other. */
  lemma WrappersKeepTheFailure(wrappers: seq<Frame>, frames: seq<Frame>)
    requires FailingIndex(frames) >= 0 && KeepsBlock(wrappers, frames)
    ensures SameButKind(Project(wrappers + frames), Project(frames))
    ensures SameFailure(Project(wrappers + frames), Project(frames)) <==> KindAgrees(wrappers, frames)
  {
    WrappersKeepTheView(wrappers, frames);
    WrappersKeepTheKind(wrappers, frames);
    OnlyTheKind(ViewOf(frames), NodeKind(wrappers + frames), (wrappers + frames)[0], frames[0]);
  }

  lemma {:induction false} JoinedBlockStart(wrappers: seq<Frame>, frames: seq<Frame>, start: nat,
                                            nodeId: Option<string>)
    requires start < |frames| && BlockStart(frames, start, nodeId) == 0 && Joins(wrappers, frames, nodeId)
    ensures BlockStart(wrappers + frames, |wrappers| + start, nodeId) < |wrappers|
    decreases start
  {
    var all := wrappers + frames;
    assert all[|wrappers| + start] == frames[start];
    if start > 0 {
      assert all[|wrappers| + start - 1] == frames[start - 1];
      JoinedBlockStart(wrappers, frames, start - 1, nodeId);
    } else {
      assert all[|wrappers| - 1] == wrappers[|wrappers| - 1];
    }
  }

  /** Under wrappers that are values of their own, a failure keeps what its reports are grouped by exactly when the
      innermost wrapper does not join its block and the kind agrees. */
  lemma WrappersKeepTheFailureIff(wrappers: seq<Frame>, frames: seq<Frame>)
    requires FailingIndex(frames) >= 0
    requires forall w, f :: w in wrappers && f in frames ==> w.raw != f.raw
    ensures SameFailure(Project(wrappers + frames), Project(frames))
       <==> KeepsBlock(wrappers, frames) && KindAgrees(wrappers, frames)
  {
    if KeepsBlock(wrappers, frames) {
      WrappersKeepTheFailure(wrappers, frames);
    } else {
      BlockKeptIff(wrappers, frames);
      var start := OwnStart(wrappers + frames);
      assert (wrappers + frames)[|wrappers| + FailingIndex(frames)] == frames[FailingIndex(frames)];
      JoinedBlockStart(wrappers, frames, FailingIndex(frames), frames[FailingIndex(frames)].nodeId);
      assert (wrappers + frames)[start] in wrappers && frames[OwnStart(frames)] in frames;
    }
  }

  // ---------------------------------------------------------------- the walk that finds the frames

  /** Values and the cause, or first aggregate member, each leads to. */
  datatype Graph = Graph(next: nat -> Option<nat>, frame: nat -> Frame)

  /** `walkProjectionChain`: stops at a value already visited, and after `fuel` frames. */
  function Walk(g: Graph, id: nat, visited: set<nat>, fuel: nat): (ids: seq<nat>)
    ensures |ids| <= fuel && (fuel > 0 ==> ids != [])
    decreases fuel
  {
    if fuel == 0 then []
    else if g.next(id).None? || g.next(id).value in visited + {id} then [id]
    else [id] + Walk(g, g.next(id).value, visited + {id}, fuel - 1)
  }

  function Frames(g: Graph, ids: seq<nat>): (frames: seq<Frame>)
    ensures |frames| == |ids|
  {
    seq(|ids|, i requires 0 <= i < |ids| => g.frame(ids[i]))
  }

  function ProjectError(g: Graph, error: nat): Projected
  {
    Project(OwnFrames(g, error))
  }

  predicate Closed(g: Graph, ids: set<nat>)
  {
    forall id {:trigger g.next(id)} :: id in ids && g.next(id).Some? ==> g.next(id).value in ids
  }

  lemma {:induction false} WalkIgnoresOutside(g: Graph, inner: set<nat>, id: nat, visited: set<nat>, seen: set<nat>,
                                              fuel: nat)
    requires Closed(g, inner) && id in inner && visited * inner == seen * inner
    ensures Walk(g, id, visited, fuel) == Walk(g, id, seen, fuel)
    decreases fuel
  {
    if fuel > 0 && g.next(id).Some? {
      var n := g.next(id).value;
      assert n in visited + {id} <==> n in (visited * inner) + {id};
      assert n in seen + {id} <==> n in (seen * inner) + {id};
      assert (visited + {id}) * inner == visited * inner + {id};
      assert (seen + {id}) * inner == seen * inner + {id};
      WalkIgnoresOutside(g, inner, n, visited + {id}, seen + {id}, fuel - 1);
    }
  }

  lemma {:induction false} WalkStopsEarly(g: Graph, id: nat, visited: set<nat>, fuel: nat, more: nat)
    requires |Walk(g, id, visited, more)| <= fuel <= more
    ensures Walk(g, id, visited, fuel) == Walk(g, id, visited, more)
    decreases fuel
  {
    if fuel > 0 && g.next(id).Some? && g.next(id).value !in visited + {id} {
      WalkStopsEarly(g, g.next(id).value, visited + {id}, fuel - 1, more - 1);
    }
  }

  function CauseOf(wrappers: seq<nat>, error: nat, i: nat): nat
  {
    if i + 1 < |wrappers| then wrappers[i + 1] else error
  }

  /** Fresh wrapper objects, each caused by the next and the last by `error`. */
  predicate Wraps(g: Graph, wrappers: seq<nat>, error: nat)
  {
    && (forall i, j :: 0 <= i < j < |wrappers| ==> wrappers[i] != wrappers[j])
    && forall i {:trigger g.next(wrappers[i])} ::
         0 <= i < |wrappers| ==> g.next(wrappers[i]) == Some(CauseOf(wrappers, error, i))
  }

  lemma InnerWrappers(g: Graph, wrappers: seq<nat>, error: nat)
    requires Wraps(g, wrappers, error) && wrappers != []
    ensures Wraps(g, wrappers[1..], error)
    ensures g.next(wrappers[0]) == Some(if wrappers[1..] == [] then error else wrappers[1..][0])
  {
    var tail := wrappers[1..];
    forall i | 0 <= i < |tail| ensures g.next(tail[i]) == Some(CauseOf(tail, error, i)) {
      assert tail[i] == wrappers[i + 1];
      assert CauseOf(tail, error, i) == CauseOf(wrappers, error, i + 1);
    }
    assert CauseOf(wrappers, error, 0) == if tail == [] then error else tail[0];
  }

  lemma WalkOnce(g: Graph, id: nat, next: nat, visited: set<nat>, fuel: nat)
    requires fuel > 0 && g.next(id) == Some(next) && next !in visited + {id}
    ensures Walk(g, id, visited, fuel) == [id] + Walk(g, next, visited + {id}, fuel - 1)
  {
  }

  lemma Regroup(id: nat, a: seq<nat>, b: seq<nat>)
    ensures [id] + (a + b) == [id] + a + b
  {
  }

  function Outermost(wrappers: seq<nat>, error: nat): nat { if wrappers == [] then error else wrappers[0] }

  /** The wrappers are different values, not visited yet and none of the failure's own. */
  predicate Apart(inner: set<nat>, wrappers: seq<nat>, visited: set<nat>)
  {
    && visited !! inner && (forall w :: w in wrappers ==> w !in inner && w !in visited)
    && forall i, j :: 0 <= i < j < |wrappers| ==> wrappers[i] != wrappers[j]
  }

  lemma TailApart(inner: set<nat>, wrappers: seq<nat>, visited: set<nat>, error: nat)
    requires wrappers != [] && Apart(inner, wrappers, visited) && error in inner
    ensures wrappers == [wrappers[0]] + wrappers[1..] && Apart(inner, wrappers[1..], visited + {wrappers[0]})
    ensures Outermost(wrappers[1..], error) !in visited + {wrappers[0]}
  {
    var w, tail := wrappers[0], wrappers[1..];
    assert w in wrappers;
    forall x | x in tail ensures x in wrappers && x != w {
      var j :| 0 <= j < |tail| && tail[j] == x;
      assert wrappers[j + 1] == x;
    }
    if tail != [] {
      assert tail[0] in tail;
    }
  }

  lemma {:induction false} WalkThroughWrappers(
      g: Graph, inner: set<nat>, wrappers: seq<nat>, error: nat, visited: set<nat>, fuel: nat)
    requires Ahead(g, inner, wrappers, error, visited) && |wrappers| <= fuel
    ensures Walk(g, Outermost(wrappers, error), visited, fuel) == wrappers + Walk(g, error, {}, fuel - |wrappers|)
    decreases |wrappers|
  {
    if wrappers == [] {
      WalkIgnoresOutside(g, inner, error, visited, {}, fuel);
      assert [] + Walk(g, error, {}, fuel) == Walk(g, error, {}, fuel);
    } else {
      AheadOfTail(g, inner, wrappers, error, visited);
      WalkThroughWrappers(g, inner, wrappers[1..], error, visited + {wrappers[0]}, fuel - 1);
      WalkOnceMore(g, wrappers, error, visited, fuel);
    }
  }

  /** The walk has come to the first of the wrappers, or past the last of them. */
  predicate Ahead(g: Graph, inner: set<nat>, wrappers: seq<nat>, error: nat, visited: set<nat>)
  {
    Closed(g, inner) && error in inner && Wraps(g, wrappers, error) && Apart(inner, wrappers, visited)
  }

  lemma AheadOfTail(g: Graph, inner: set<nat>, wrappers: seq<nat>, error: nat, visited: set<nat>)
    requires Ahead(g, inner, wrappers, error, visited) && wrappers != []
    ensures Ahead(g, inner, wrappers[1..], error, visited + {wrappers[0]})
    ensures g.next(wrappers[0]) == Some(Outermost(wrappers[1..], error))
    ensures Outermost(wrappers[1..], error) !in visited + {wrappers[0]}
  {
    InnerWrappers(g, wrappers, error);
    TailApart(inner, wrappers, visited, error);
  }

  lemma WalkOnceMore(g: Graph, wrappers: seq<nat>, error: nat, visited: set<nat>, fuel: nat)
    requires 0 < |wrappers| <= fuel
    requires g.next(wrappers[0]) == Some(Outermost(wrappers[1..], error))
    requires Outermost(wrappers[1..], error) !in visited + {wrappers[0]}
    requires Walk(g, Outermost(wrappers[1..], error), visited + {wrappers[0]}, fuel - 1)
          == wrappers[1..] + Walk(g, error, {}, fuel - |wrappers|)
    ensures Walk(g, wrappers[0], visited, fuel) == wrappers + Walk(g, error, {}, fuel - |wrappers|)
  {
    WalkOnce(g, wrappers[0], Outermost(wrappers[1..], error), visited, fuel);
    Regroup(wrappers[0], wrappers[1..], Walk(g, error, {}, fuel - |wrappers|));
    assert [wrappers[0]] + wrappers[1..] == wrappers;
  }

  /** Fresh wrappers around a failure whose own causes lie in `inner`. */
  predicate Wrapped(g: Graph, inner: set<nat>, wrappers: seq<nat>, error: nat)
  {
    && Closed(g, inner) && error in inner && Wraps(g, wrappers, error) && wrappers != []
    && forall w :: w in wrappers ==> w !in inner
  }

  /** What the walk sees of a failure by itself. */
  function OwnFrames(g: Graph, error: nat): seq<Frame>
  {
    Frames(g, Walk(g, error, {}, PROJECTION_MAX_DEPTH))
  }

  /** A wrapped chain that stays within the walk's depth is walked whole. */
  lemma WrappedFrames(g: Graph, inner: set<nat>, wrappers: seq<nat>, error: nat)
    requires Wrapped(g, inner, wrappers, error)
    requires |wrappers| + |OwnFrames(g, error)| <= PROJECTION_MAX_DEPTH
    ensures OwnFrames(g, wrappers[0]) == Frames(g, wrappers) + OwnFrames(g, error)
  {
    var own := Walk(g, error, {}, PROJECTION_MAX_DEPTH);
    WalkThroughWrappers(g, inner, wrappers, error, {}, PROJECTION_MAX_DEPTH);
    WalkStopsEarly(g, error, {}, PROJECTION_MAX_DEPTH - |wrappers|, PROJECTION_MAX_DEPTH);
    FramesJoin(g, wrappers, own);
  }

  lemma FramesJoin(g: Graph, a: seq<nat>, b: seq<nat>)
    ensures Frames(g, a + b) == Frames(g, a) + Frames(g, b)
  {
  }

  /** Every requester of one failure gets its message: wrappers are fresh objects, the innermost does not join the
      failing block, and the whole chain stays within the walk's depth.  It gets its fingerprint too exactly when
      the failing node's own frames name a kind or the wrappers name no other. */
  lemma RequestersReportAlike(g: Graph, inner: set<nat>, wrappers: seq<nat>, error: nat, mask: string -> string)
    requires Wrapped(g, inner, wrappers, error) && FailingIndex(OwnFrames(g, error)) >= 0
    requires KeepsBlock(Frames(g, wrappers), OwnFrames(g, error))
    requires |wrappers| + |OwnFrames(g, error)| <= PROJECTION_MAX_DEPTH
    ensures SameFailure(ProjectError(g, wrappers[0]), ProjectError(g, error))
       <==> KindAgrees(Frames(g, wrappers), OwnFrames(g, error))
    ensures ReportMessage(ProjectError(g, wrappers[0])) == ReportMessage(ProjectError(g, error))
    ensures ReportFingerprint(ProjectError(g, wrappers[0]), mask) == ReportFingerprint(ProjectError(g, error), mask)
       <==> KindAgrees(Frames(g, wrappers), OwnFrames(g, error))
  {
    WrappedFrames(g, inner, wrappers, error);
    WrappersKeepTheFailure(Frames(g, wrappers), OwnFrames(g, error));
    NodeKept(OwnFrames(g, error));
    ReportsAlike(ProjectError(g, wrappers[0]), ProjectError(g, error), mask);
  }

  /** In particular, whenever an acquire fails and a dependent node's error wraps that failure, both report it
      alike, whatever the acquire failed of: the error's own frames may go on below. */
  lemma DependentReportsAlike(g: Graph, inner: set<nat>, dependent: nat, error: nat, mask: string -> string)
    requires Wrapped(g, inner, [dependent], error) && 1 + |OwnFrames(g, error)| <= PROJECTION_MAX_DEPTH
    requires g.frame(error).tag == Some(AcquireFailed) && g.frame(dependent).tag == Some(DependencyFailed)
    requires g.frame(error).nodeId != g.frame(dependent).nodeId && FailingIndex(OwnFrames(g, error)) == 0
    ensures ReportMessage(ProjectError(g, dependent)) == ReportMessage(ProjectError(g, error))
    ensures ReportFingerprint(ProjectError(g, dependent), mask) == ReportFingerprint(ProjectError(g, error), mask)
  {
    var own := OwnFrames(g, error);
    assert own[0] == g.frame(error);
    assert own[0..] == own;
    AcquireFailureHasAKind(own);
    RequestersReportAlike(g, inner, [dependent], error, mask);
  }

  lemma AcquireFailureHasAKind(frames: seq<Frame>)
    requires frames != [] && frames[0].tag == Some(AcquireFailed)
    ensures !KindOf(frames).Unexpected?
  {
    assert InGroup(frames[0], ReadinessFailure);
  }

  /** But whenever a node is evicted and a dependent node's error wraps that eviction, the two reports are told
      apart: an eviction names no kind, so each requester's wrapper decides it. */
  lemma EvictionReportsDiffer(g: Graph, inner: set<nat>, dependent: nat, error: nat, mask: string -> string)
    requires Wrapped(g, inner, [dependent], error) && OwnFrames(g, error) == [g.frame(error)]
    requires g.frame(error).tag == Some(NodeEvicted) && g.frame(dependent).tag == Some(DependencyFailed)
    requires g.frame(error).nodeId != g.frame(dependent).nodeId && IsNode(g.frame(error))
    ensures ReportMessage(ProjectError(g, dependent)) == ReportMessage(ProjectError(g, error))
    ensures ReportFingerprint(ProjectError(g, dependent), mask) != ReportFingerprint(ProjectError(g, error), mask)
  {
    var own, wrapper := g.frame(error), g.frame(dependent);
    assert FailingIndex([own]) == 0 && [own][0..] == [own];
    assert Frames(g, [dependent]) == [wrapper];
    EvictionHasNoKind(own, wrapper);
    RequestersReportAlike(g, inner, [dependent], error, mask);
  }

  lemma EvictionHasNoKind(own: Frame, wrapper: Frame)
    requires own.tag == Some(NodeEvicted) && wrapper.tag == Some(DependencyFailed)
    ensures KindOf([own]).Unexpected? && KindOf([wrapper] + [own]).Readiness?
  {
    forall group
      ensures !Any([own], group) && (Any([wrapper] + [own], group) <==> group.ReadinessFailure?)
    {
      assert [own][1..] == [] && ([wrapper] + [own])[1..] == [own];
      assert !InGroup(own, group) && (InGroup(wrapper, group) <==> group.ReadinessFailure?);
    }
  }

  /** Two errors of two nodes, the second caused by the first. */
  function TwoErrors(tag: Tag): Graph
  {
    Graph(
      id => if id == 1 then Some(0) else None,
      id => if id == 1 then Failed(1, DependencyFailed, "b") else Failed(0, tag, "a"))
  }

  function Failed(raw: nat, tag: Tag, node: string): Frame
  {
    Frame(raw, true, true, "", false, Some(tag), None, None, Some(node), Some(node), None, None, None, None, None)
  }

  /** Such failures exist, failed acquires and evictions alike. */
  lemma TwoErrorsAreWrapped(tag: Tag)
    requires tag.AcquireFailed? || tag.NodeEvicted?
    ensures var g := TwoErrors(tag);
      && Wrapped(g, {0}, [1], 0) && OwnFrames(g, 0) == [g.frame(0)] && g.frame(0).tag == Some(tag)
      && g.frame(1).tag == Some(DependencyFailed) && g.frame(0).nodeId != g.frame(1).nodeId && IsNode(g.frame(0))
      && FailingIndex(OwnFrames(g, 0)) == 0
  {
    var g := TwoErrors(tag);
    assert g.frame(0) == Failed(0, tag, "a") && g.frame(1) == Failed(1, DependencyFailed, "b");
    assert Walk(g, 0, {}, PROJECTION_MAX_DEPTH) == [0];
    assert "a"[0] != "b"[0];
  }

  lemma ReportsAlike(p: Projected, q: Projected, mask: string -> string)
    requires SameButKind(p, q) && q.failingNode.Some?
    ensures ReportMessage(p) == ReportMessage(q)
    ensures ReportFingerprint(p, mask) == ReportFingerprint(q, mask) <==> p.kind == q.kind
  {
    if p.kind != q.kind {
      assert ReportFingerprint(p, mask)[1] == KindName(p.kind) && ReportFingerprint(q, mask)[1] == KindName(q.kind);
      KindsHaveNames(p.kind, q.kind);
    }
  }

  lemma KindsHaveNames(k: Kind, l: Kind)
    requires k != l
    ensures KindName(k) != KindName(l)
  {
    assert |KindName(k)| != |KindName(l)| || KindName(k)[1] != KindName(l)[1];
  }

  lemma NodeKept(frames: seq<Frame>)
    requires FailingIndex(frames) >= 0
    ensures Project(frames).failingNode.Some?
  {
  }

  lemma {:induction false} WalkIsPrefix(g: Graph, id: nat, visited: set<nat>, fuel: nat, more: nat)
    requires fuel <= more
    ensures Walk(g, id, visited, fuel) <= Walk(g, id, visited, more)
    ensures |Walk(g, id, visited, fuel)| == fuel || Walk(g, id, visited, fuel) == Walk(g, id, visited, more)
    decreases fuel
  {
    if fuel > 0 && g.next(id).Some? && g.next(id).value !in visited + {id} {
      WalkIsPrefix(g, g.next(id).value, visited + {id}, fuel - 1, more - 1);
    }
  }

  /** The last node frame of a prefix is that of the whole exactly when the prefix reaches it. */
  lemma PrefixFailing(frames: seq<Frame>, k: nat)
    requires k <= |frames| && FailingIndex(frames) >= 0
    ensures FailingIndex(frames[..k]) == FailingIndex(frames) <==> FailingIndex(frames) < k
  {
    if FailingIndex(frames) < k {
      assert IsNode(frames[..k][FailingIndex(frames)]);
    }
  }

  /** A wrapped failure's own frame is found as the failing one exactly when the walk, which stops after 256
      frames, gets as far as it. */
  lemma FailingFrameFoundIff(g: Graph, inner: set<nat>, wrappers: seq<nat>, error: nat)
    requires Wrapped(g, inner, wrappers, error) && FailingIndex(OwnFrames(g, error)) >= 0
    ensures FailingIndex(OwnFrames(g, wrappers[0])) == |wrappers| + FailingIndex(OwnFrames(g, error))
       <==> |wrappers| + FailingIndex(OwnFrames(g, error)) < PROJECTION_MAX_DEPTH
  {
    if |wrappers| <= PROJECTION_MAX_DEPTH {
      var k := WrappedWalk(g, inner, wrappers, error, PROJECTION_MAX_DEPTH);
      FailingUnder(Frames(g, wrappers), OwnFrames(g, error), k);
    }
  }

  /** What the walk sees of a wrapped failure: the wrappers, then as many of its own frames as are left. */
  lemma WrappedWalk(g: Graph, inner: set<nat>, wrappers: seq<nat>, error: nat, depth: nat) returns (k: nat)
    requires Wrapped(g, inner, wrappers, error) && |wrappers| <= depth
    ensures k <= |Walk(g, error, {}, depth)|
    ensures k == depth - |wrappers| || (k == |Walk(g, error, {}, depth)| && k <= depth - |wrappers|)
    ensures Frames(g, Walk(g, wrappers[0], {}, depth))
         == Frames(g, wrappers) + Frames(g, Walk(g, error, {}, depth))[..k]
  {
    var own := Walk(g, error, {}, depth);
    var seen := Walk(g, error, {}, depth - |wrappers|);
    k := |seen|;
    WalkIsPrefix(g, error, {}, depth - |wrappers|, depth);
    assert Walk(g, wrappers[0], {}, depth) == wrappers + seen by {
      WalkThroughWrappers(g, inner, wrappers, error, {}, depth);
    }
    FramesInTwo(g, wrappers, seen, own);
  }

  lemma FramesInTwo(g: Graph, wrappers: seq<nat>, seen: seq<nat>, own: seq<nat>)
    requires seen <= own
    ensures Frames(g, wrappers + seen) == Frames(g, wrappers) + Frames(g, own)[..|seen|]
  {
    FramesJoin(g, wrappers, seen);
    FramesPrefix(g, seen, own);
  }

  lemma FramesPrefix(g: Graph, some: seq<nat>, ids: seq<nat>)
    requires some <= ids
    ensures Frames(g, some) == Frames(g, ids)[..|some|]
  {
  }

  lemma FailingUnder(wrappers: seq<Frame>, frames: seq<Frame>, k: nat)
    requires k <= |frames| && FailingIndex(frames) >= 0
    ensures FailingIndex(wrappers + frames[..k]) == |wrappers| + FailingIndex(frames) <==> FailingIndex(frames) < k
  {
    PrefixFailing(frames, k);
    if FailingIndex(frames[..k]) >= 0 {
      LastIndexUnder(wrappers, frames[..k], IsNode);
    } else {
      NothingUnder(wrappers, frames[..k]);
    }
  }

  lemma NothingUnder(wrappers: seq<Frame>, frames: seq<Frame>)
    requires FailingIndex(frames) < 0
    ensures FailingIndex(wrappers + frames) < |wrappers|
  {
  }

  /** Beyond the walk's depth the failure is lost: under 256 wrappers that carry no node of their own, no
      failing node is found whatever they wrap. */
  lemma TooManyWrappersLoseTheNode(g: Graph, inner: set<nat>, wrappers: seq<nat>, error: nat)
    requires Wrapped(g, inner, wrappers, error) && |wrappers| == PROJECTION_MAX_DEPTH
    requires forall w :: w in wrappers ==> !IsNode(g.frame(w))
    ensures ProjectError(g, wrappers[0]).failingNode.None?
  {
    WalkThroughWrappers(g, inner, wrappers, error, {}, PROJECTION_MAX_DEPTH);
    assert wrappers + [] == wrappers;
    NoNodeNoFailure(g, wrappers);
  }

  lemma NoNodeNoFailure(g: Graph, ids: seq<nat>)
    requires ids != [] && forall w :: w in ids ==> !IsNode(g.frame(w))
    ensures Project(Frames(g, ids)).failingNode.None?
  {
    var frames := Frames(g, ids);
    forall i | 0 <= i < |frames| ensures !IsNode(frames[i]) {
      assert ids[i] in ids;
    }
  }

  // ---------------------------------------------------------------- the source's loops

  method FindLastNodeFrame(frames: seq<Frame>) returns (index: int)
    ensures index == FailingIndex(frames)
  {
    index := |frames| - 1;
    while index >= 0
      invariant -1 <= index < |frames|
      invariant FailingIndex(frames) == FailingIndex(frames[..index + 1])
    {
      if IsNode(frames[index]) {
        return;
      }
      assert frames[..index + 1][..index] == frames[..index];
      index := index - 1;
    }
  }

  method FailingBlockStart(frames: seq<Frame>, failingIndex: nat) returns (start: nat)
    requires failingIndex < |frames|
    ensures start == BlockStart(frames, failingIndex, frames[failingIndex].nodeId)
  {
    var nodeId := frames[failingIndex].nodeId;
    start := failingIndex;
    while start > 0
      invariant start <= failingIndex
      invariant BlockStart(frames, failingIndex, nodeId) == BlockStart(frames, start, nodeId)
    {
      var previous := frames[start - 1];
      if frames[start].reported {
        break;
      }
      if !IsFrond(previous) || previous.tag == Some(FrondRuntimeReadError) || previous.nodeId != nodeId {
        break;
      }
      start := start - 1;
    }
  }

  method WalkFrames(g: Graph, error: nat, maxDepth: nat) returns (ids: seq<nat>)
    ensures ids == Walk(g, error, {}, maxDepth)
  {
    ids := [];
    var visited: set<nat> := {};
    var current := error;
    for index := 0 to maxDepth
      invariant ids + Walk(g, current, visited, maxDepth - index) == Walk(g, error, {}, maxDepth)
    {
      ghost var ahead := Walk(g, current, visited, maxDepth - index);
      ids := ids + [current];
      visited := visited + {current};
      var next := g.next(current);
      if next.None? || next.value in visited {
        assert ahead == [current];
        return;
      }
      assert ahead == [current] + Walk(g, next.value, visited, maxDepth - index - 1);
      current := next.value;
    }
  }
}
