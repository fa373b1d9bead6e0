/** Outcome classification of one batch post: app/internal/seeder/solr/client.go. */
module SolrClient {
  import opened Options

  /** The two sentinel errors the seeder asks errors.Is about. */
  datatype Sentinel = ContextCanceled | ContextDeadlineExceeded

  /** Go error trees. A leaf lists the sentinels it equals or claims through an Is method;
      Joined stands for errors that unwrap to several errors. */
  datatype Error =
    | Leaf(matches: set<Sentinel>)
    | Wrapped(inner: Error)
    | Joined(left: Error, right: Error)
    | ClientError(status: int, retryable: bool, cause: Option<Error>)

  /** errors.Is: some error of the tree matches the sentinel. */
  predicate Is(err: Error, target: Sentinel) {
    match err
    case Leaf(matches) => target in matches
    case Wrapped(inner) => Is(inner, target)
    case Joined(left, right) => Is(left, target) || Is(right, target)
    case ClientError(_, _, cause) => cause.Some? && Is(cause.value, target)
  }

  /** errors.As for *ClientError: the first client error, outermost and leftmost first. */
  function AsClientError(err: Error): (found: Option<Error>)
    ensures found.Some? ==> found.value.ClientError?
  {
    match err
    case Leaf(_) => None
    case Wrapped(inner) => AsClientError(inner)
    case Joined(left, right) => var l := AsClientError(left); if l.Some? then l else AsClientError(right)
    case ClientError(_, _, _) => Some(err)
  }

  predicate IsRetryable(err: Error) {
    var client := AsClientError(err);
    client.Some? && client.value.retryable
  }

  datatype FailureKind = Canceled | Timeout | Http4xx | Http5xx | Network | Client | Unknown

  function FailureType(err: Error): FailureKind {
    match AsClientError(err)
    case Some(ClientError(status, _, cause)) =>
      if cause.Some? && Is(cause.value, ContextCanceled) then Canceled
      else if cause.Some? && Is(cause.value, ContextDeadlineExceeded) then Timeout
      else if 400 <= status < 500 then Http4xx
      else if 500 <= status then Http5xx
      else if cause.Some? then Network
      else Client
    case _ =>
      if Is(err, ContextCanceled) then Canceled
      else if Is(err, ContextDeadlineExceeded) then Timeout
      else Unknown
  }

  predicate RetryableStatus(status: int) {
    status == 408 || status == 429 || 500 <= status
  }

  /** What the JSON body of a 2xx answer decodes to. */
  datatype Envelope = Undecodable(err: Error) | Header(status: int)

  /** What the environment can do with one post. */
  datatype Exchange =
    | MarshalFails(err: Error)
    | BuildFails(err: Error)
    | TransportFails(err: Error)
    | BodyFails(status: int, err: Error)
    | Answered(status: int, envelope: Envelope)

  /** The error PostBatch returns: None is a nil error. */
  type Reply = Option<Error>

  function Classify(x: Exchange): Reply {
    match x
    case MarshalFails(err) => Some(ClientError(0, false, Some(Wrapped(err))))
    case BuildFails(err) => Some(ClientError(0, false, Some(Wrapped(err))))
    case TransportFails(err) => Some(ClientError(0, !Is(err, ContextCanceled), Some(err)))
    case BodyFails(status, err) => Some(ClientError(status, false, Some(Wrapped(err))))
    case Answered(status, envelope) =>
      if status < 200 || 300 <= status then Some(ClientError(status, RetryableStatus(status), None))
      else match envelope
        case Undecodable(err) => Some(ClientError(status, false, Some(Wrapped(err))))
        case Header(code) => if code != 0 then Some(ClientError(status, false, Some(Leaf({})))) else None
  }

  /** PostBatch with its early returns. */
  method PostBatch(x: Exchange) returns (reply: Reply)
    ensures reply == Classify(x)
    ensures reply.None? <==> x.Answered? && 200 <= x.status < 300 && x.envelope == Header(0)
    ensures reply.Some? ==> reply.value.ClientError?
  {
    if x.MarshalFails? || x.BuildFails? {
      return Some(ClientError(0, false, Some(Wrapped(x.err))));
    }
    if x.TransportFails? {
      if Is(x.err, ContextCanceled) {
        return Some(ClientError(0, false, Some(x.err)));
      }
      if Is(x.err, ContextDeadlineExceeded) {
        return Some(ClientError(0, true, Some(x.err)));
      }
      return Some(ClientError(0, true, Some(x.err)));
    }
    if x.BodyFails? {
      return Some(ClientError(x.status, false, Some(Wrapped(x.err))));
    }
    if x.status < 200 || x.status >= 300 {
      return Some(ClientError(x.status, RetryableStatus(x.status), None));
    }
    if x.envelope.Undecodable? {
      return Some(ClientError(x.status, false, Some(Wrapped(x.envelope.err))));
    }
    if x.envelope.status != 0 {
      return Some(ClientError(x.status, false, Some(Leaf({}))));
    }
    return None;
  }

  /** An error that PostBatch keeps carries the sentinel. A body outside 2xx is never decoded. */
  predicate Carries(x: Exchange, target: Sentinel) {
    match x
    case Answered(status, Undecodable(err)) => 200 <= status < 300 && Is(err, target)
    case Answered(_, Header(_)) => false
    case _ => Is(x.err, target)
  }

  /** The exchange carries a cancellation. */
  predicate MentionsCancel(x: Exchange) { Carries(x, ContextCanceled) }

  // ----- error-chain laws -----

  /** The errors one unwrapping step leads to, in order. */
  function Unwrap(err: Error): seq<Error> {
    match err
    case Leaf(_) => []
    case Wrapped(inner) => [inner]
    case Joined(left, right) => [left, right]
    case ClientError(_, _, cause) => if cause.Some? then [cause.value] else []
  }

  /** What unwrapping leads to along a path of choices. */
  function Along(err: Error, path: seq<nat>): Option<Error>
    decreases |path|
  {
    if path == [] then Some(err)
    else if path[0] < |Unwrap(err)| then Along(Unwrap(err)[path[0]], path[1..])
    else None
  }

  predicate MatchesAt(err: Error, path: seq<nat>, target: Sentinel) {
    var end := Along(err, path);
    end.Some? && end.value.Leaf? && target in end.value.matches
  }

  lemma MatchesBelow(err: Error, k: nat, path: seq<nat>, target: Sentinel)
    requires k < |Unwrap(err)| && MatchesAt(Unwrap(err)[k], path, target)
    ensures MatchesAt(err, [k] + path, target)
  {
    assert ([k] + path)[1..] == path;
  }

  lemma IsByStep(err: Error, target: Sentinel)
    ensures Is(err, target) <==>
      || (err.Leaf? && target in err.matches)
      || exists k :: 0 <= k < |Unwrap(err)| && Is(Unwrap(err)[k], target)
  {
    match err
    case Joined(left, right) => assert Unwrap(err)[0] == left && Unwrap(err)[1] == right;
    case Wrapped(inner) => assert Unwrap(err)[0] == inner;
    case ClientError(_, _, Some(cause)) => assert Unwrap(err)[0] == cause;
    case _ =>
  }

  /** errors.Is finds a sentinel exactly when repeated unwrapping leads to an error that matches it. */
  lemma {:induction false} IsExactly(err: Error, target: Sentinel)
    ensures Is(err, target) <==> exists path :: MatchesAt(err, path, target)
  {
    if err.Leaf? {
      assert MatchesAt(err, [], target) <==> target in err.matches;
    }
    forall k | 0 <= k < |Unwrap(err)|
      ensures Is(Unwrap(err)[k], target) <==> exists path :: MatchesAt(Unwrap(err)[k], path, target)
    {
      IsExactly(Unwrap(err)[k], target);
    }
    IsByStep(err, target);
    if k :| 0 <= k < |Unwrap(err)| && Is(Unwrap(err)[k], target) {
      var path :| MatchesAt(Unwrap(err)[k], path, target);
      MatchesBelow(err, k, path, target);
    }
    if path :| MatchesAt(err, path, target) {
      if path != [] {
        assert MatchesAt(Unwrap(err)[path[0]], path[1..], target);
      }
    }
  }

  /** The path leads to a client error. */
  predicate ClientAt(err: Error, path: seq<nat>) { var end := Along(err, path); end.Some? && end.value.ClientError? }

  /** Depth-first order: what is reached on the way comes first, then what lies further left. */
  predicate Before(p: seq<nat>, q: seq<nat>)
    decreases |p|
  {
    p == [] || (q != [] && (p[0] < q[0] || (p[0] == q[0] && Before(p[1..], q[1..]))))
  }

  lemma ClientBelow(err: Error, k: nat, path: seq<nat>)
    requires k < |Unwrap(err)|
    ensures Along(err, [k] + path) == Along(Unwrap(err)[k], path)
  {
    assert ([k] + path)[1..] == path;
  }

  /** errors.As picks the first client error in depth-first order of unwrapping, and finds one if there
      is any. */
  lemma {:induction false} AsPicksFirst(err: Error) returns (path: seq<nat>)
    ensures AsClientError(err).Some? ==> ClientAt(err, path) && Along(err, path) == AsClientError(err)
    ensures forall q :: ClientAt(err, q) ==> AsClientError(err).Some? && Before(path, q)
  {
    path := [];
    match err
    case Wrapped(inner) =>
      var p := AsPicksFirst(inner);
      path := [0] + p;
      ClientBelow(err, 0, p);
      FirstBelow(err, 0, p);
    case Joined(left, right) =>
      var p := AsPicksFirst(left);
      var q := AsPicksFirst(right);
      ClientBelow(err, 0, p);
      ClientBelow(err, 1, q);
      if AsClientError(left).Some? {
        path := [0] + p;
        FirstBelow(err, 0, p);
      } else {
        path := [1] + q;
        FirstBelow(err, 1, q);
      }
    case _ =>
  }

  /** What comes first below one branch comes first on all paths through it and further right. */
  lemma FirstBelow(err: Error, k: nat, p: seq<nat>)
    requires k < |Unwrap(err)| && !err.ClientError?
    requires forall q :: ClientAt(Unwrap(err)[k], q) ==> Before(p, q)
    requires forall j, q :: 0 <= j < k ==> !ClientAt(Unwrap(err)[j], q)
    ensures forall q :: ClientAt(err, q) ==> Before([k] + p, q)
    ensures forall q :: ClientAt(err, q) ==> q != [] && q[0] < |Unwrap(err)| && ClientAt(Unwrap(err)[q[0]], q[1..])
  {
    forall q | ClientAt(err, q)
      ensures q != [] && q[0] < |Unwrap(err)| && ClientAt(Unwrap(err)[q[0]], q[1..])
      ensures Before([k] + p, q)
    {
      assert q != [] && ClientAt(Unwrap(err)[q[0]], q[1..]);
      assert ([k] + p)[1..] == p;
    }
  }

  /** Whatever errors.Is finds below the client error that errors.As picks, it finds in the whole tree. */
  lemma {:induction false} AsKeepsIs(err: Error, target: Sentinel)
    requires AsClientError(err).Some?
    requires Is(AsClientError(err).value, target)
    ensures Is(err, target)
  {
    match err
    case Wrapped(inner) => AsKeepsIs(inner, target);
    case Joined(left, right) =>
      if AsClientError(left).Some? {
        AsKeepsIs(left, target);
      } else {
        AsKeepsIs(right, target);
      }
    case _ =>
  }

  /** The cancellation guard of the retry loop precedes the failure record, so no tree of any
      shape that passes the guard is recorded as canceled. */
  lemma GuardedFailureIsNotCanceled(err: Error)
    requires !Is(err, ContextCanceled)
    ensures FailureType(err) != Canceled
  {
    if AsClientError(err).Some? && Is(AsClientError(err).value, ContextCanceled) {
      AsKeepsIs(err, ContextCanceled);
    }
  }

  /** Exactly which exchanges the seeder retries. */
  lemma RetriedExactly(x: Exchange)
    ensures Classify(x).Some? && IsRetryable(Classify(x).value) <==>
      || (x.TransportFails? && !Is(x.err, ContextCanceled))
      || (x.Answered? && (x.status == 408 || x.status == 429 || 500 <= x.status))
  {
    if x.Answered? && 200 <= x.status < 300 {
      assert !RetryableStatus(x.status);
    }
  }

  /** The status of an answer that PostBatch got hold of. */
  predicate HasStatus(x: Exchange, low: int, high: int) { (x.Answered? || x.BodyFails?) && low <= x.status < high }

  /** The label of every failed exchange. A sentinel decides first, cancellation before deadline; else the
      status class of an answer; else a bare answer below 400 is the client's, and the rest the network's. */
  lemma LabelExactly(x: Exchange)
    requires Classify(x).Some?
    ensures var kind := FailureType(Classify(x).value);
      var plain := !Carries(x, ContextCanceled) && !Carries(x, ContextDeadlineExceeded);
      && (kind == Canceled <==> Carries(x, ContextCanceled))
      && (kind == Timeout <==> !Carries(x, ContextCanceled) && Carries(x, ContextDeadlineExceeded))
      && (kind == Http4xx <==> plain && HasStatus(x, 400, 500))
      && (kind == Http5xx <==> plain && (x.Answered? || x.BodyFails?) && 500 <= x.status)
      && (kind == Client <==> x.Answered? && x.status < 400 && !(200 <= x.status < 300))
      && (kind == Network <==> plain && !(x.Answered? && !(200 <= x.status < 300))
                               && !((x.Answered? || x.BodyFails?) && 400 <= x.status))
      && kind != Unknown
  {}

  /** The label a retried failure carries, and what each label then says about the exchange. */
  lemma RetriedLabel(x: Exchange)
    requires Classify(x).Some? && IsRetryable(Classify(x).value)
    ensures var kind := FailureType(Classify(x).value);
      && (kind == Timeout <==> x.TransportFails? && Is(x.err, ContextDeadlineExceeded))
      && (kind == Network <==> x.TransportFails? && !Is(x.err, ContextDeadlineExceeded))
      && (kind == Http4xx <==> x.Answered? && (x.status == 408 || x.status == 429))
      && (kind == Http5xx <==> x.Answered? && 500 <= x.status)
      && kind in {Timeout, Network, Http4xx, Http5xx}
  {
    RetriedExactly(x);
  }

  /** The timeout label alone does not make a failure retryable: it is retried exactly when the
      deadline struck before the response headers, never while the body was read. */
  lemma TimeoutRetriedExactly(x: Exchange)
    requires Classify(x).Some? && FailureType(Classify(x).value) == Timeout
    ensures IsRetryable(Classify(x).value) <==> x.TransportFails?
  {
    RetriedExactly(x);
  }

  /** errors.Is finds in a reply exactly the sentinels that the exchange carried. */
  lemma ReplyCarriesExactly(x: Exchange, target: Sentinel)
    requires Classify(x).Some?
    ensures Is(Classify(x).value, target) <==> Carries(x, target)
  {
    var ClientError(_, _, cause) := Classify(x).value;
    assert Is(Classify(x).value, target) <==> cause.Some? && Is(cause.value, target);
  }
}
