/** The expiry policy: when one observation of an instance makes it eligible for termination. */
module Expiry {
  import opened Basics
  import LT = LaunchTypes

  datatype Scope = Scope(account: string, region: string, deployment: string, owner: string, wellFormed: bool)

  /** The text of a tag value: a deadline the policy can parse, or anything else. */
  datatype Value = Deadline(nanos: int, spelling: string) | Text(text: string)

  /** An AWS tag keeps a missing key or value apart from an empty one. */
  datatype Tag = Tag(key: Option<string>, value: Option<Value>)

  datatype State = Pending | Running | Stopping | Stopped | ShuttingDown | Terminated | OtherState

  datatype Resource = Resource(id: string, account: string, region: string, state: State, tags: seq<Tag>)

  datatype Reason = Expired | ExpiryFuture | ExpiryMissing | ExpiryDuplicate | ExpiryInvalid | ExpiryChanged
                  | AlreadyTerminating
                  | AlreadyTerminated | StateUnknown | ClockInvalid | ScopeInvalid | ScopeMismatch | ResourceInvalid
                  | TagsInvalid
                  | TagsDuplicate | ResourceChanged

  /** One observation; the deadline is present only when exactly one usable expiry tag was found. */
  datatype Decision = Decision(id: string, state: State, expiresAt: Option<Value>, eligible: bool, reason: Reason)

  const EXPIRY_KEY := "ExpiresAt"

  /** A clock reading that can be rendered; no reading at all is not. */
  datatype Clock = Clock(nanos: int, valid: bool)

  ghost function ExpiryTags(tags: seq<Tag>): seq<Tag> {
    if tags == [] then []
    else ExpiryTags(tags[..|tags| - 1]) + (if tags[|tags| - 1].key == Some(EXPIRY_KEY) then [tags[|tags| - 1]] else [])
  }

  datatype Inspection = Usable(value: Value) | Unusable(reason: Reason)

  ghost function Inspected(tags: seq<Tag>): Inspection {
    var found := ExpiryTags(tags);
    if |found| > 1 then Unusable(ExpiryDuplicate)
    else if found == [] then Unusable(ExpiryMissing)
    else if found[0].value.None? || !found[0].value.value.Deadline? then Unusable(ExpiryInvalid)
    else Usable(found[0].value.value)
  }

  /** `InspectTags`: the loop that counts expiry tags and keeps the last value. */
  method InspectTags(tags: seq<Tag>) returns (i: Inspection)
    ensures i == Inspected(tags)
  {
    var count := 0;
    var value: Option<Value> := None;
    for n := 0 to |tags|
      invariant count == |ExpiryTags(tags[..n])|
      invariant count > 0 ==> value == ExpiryTags(tags[..n])[count - 1].value
    {
      assert tags[..n + 1][..n] == tags[..n];
      if tags[n].key == Some(EXPIRY_KEY) {
        count, value := count + 1, tags[n].value;
      }
    }
    assert tags[..|tags|] == tags;
    if count > 1 {
      return Unusable(ExpiryDuplicate);
    }
    if count == 0 {
      return Unusable(ExpiryMissing);
    }
    return if value.Some? && value.value.Deadline? then Usable(value.value) else Unusable(ExpiryInvalid);
  }

  /** The tags that name the scope: every key present and used once, every value present. */
  ghost predicate Unambiguous(tags: seq<Tag>) {
    && (forall t | t in tags :: t.key.Some? && t.key.value != "" && (t.key.value != EXPIRY_KEY ==> t.value.Some?))
    && (forall i, j | 0 <= i < j < |tags| && tags[i].key != Some(EXPIRY_KEY) :: tags[i].key != tags[j].key)
  }

  ghost predicate HasTag(tags: seq<Tag>, key: string, value: string) {
    Tag(Some(key), Some(Text(value))) in tags
  }

  ghost predicate InScope(scope: Scope, r: Resource) {
    && scope.wellFormed && LT.ValidInstanceID(r.id) && r.account == scope.account && r.region == scope.region
    && Unambiguous(r.tags)
    && HasTag(r.tags, "ManagedBy", "devbox") && HasTag(r.tags, "Deployment", scope.deployment)
       && HasTag(r.tags, "Owner", scope.owner)
  }

  ghost predicate Live(s: State) {
    s.Pending? || s.Running? || s.Stopping? || s.Stopped?
  }

  /** What the loop over tags has collected: one value for each key other than the expiry key. */
  ghost predicate Collected(tags: seq<Tag>, m: map<string, Value>) {
    && (forall t | t in tags && t.key != Some(EXPIRY_KEY) ::
         t.key.Some? && t.value.Some? && t.key.value in m && m[t.key.value] == t.value.value)
    && (forall k | k in m :: k != EXPIRY_KEY && Tag(Some(k), Some(m[k])) in tags)
  }

  /** The tag at `n` is the first that makes the tags ambiguous, in this way. */
  ghost predicate FirstFlaw(tags: seq<Tag>, n: nat, why: Reason) {
    && n < |tags| && Unambiguous(tags[..n]) && !Unambiguous(tags[..n + 1])
    && why == if tags[n].key.None? || tags[n].key.value == ""
                 || (tags[n].key.value != EXPIRY_KEY && tags[n].value.None?)
              then TagsInvalid else TagsDuplicate
  }

  /** The clock, the scope, the identity and the place of an instance are in order, whatever its tags say. */
  ghost predicate Placed(scope: Scope, r: Resource, now: Clock) {
    && now.valid && scope.wellFormed && LT.ValidInstanceID(r.id) && r.account == scope.account
    && r.region == scope.region
  }

  /** An instance of the scope with one parsable deadline, which has passed. */
  ghost predicate Due(scope: Scope, r: Resource, now: Clock) {
    && now.valid && InScope(scope, r) && Inspected(r.tags).Usable? && Inspected(r.tags).value.Deadline?
    && Inspected(r.tags).value.nanos <= now.nanos
  }

  /** What each reason says of an observation. */
  ghost predicate Warrants(scope: Scope, r: Resource, now: Clock, why: Reason) {
    match why
    case ClockInvalid => !now.valid
    case ScopeInvalid => now.valid && !scope.wellFormed
    case ResourceInvalid => now.valid && scope.wellFormed && !LT.ValidInstanceID(r.id)
    case TagsInvalid => Placed(scope, r, now) && exists n :: FirstFlaw(r.tags, n, TagsInvalid)
    case TagsDuplicate => Placed(scope, r, now) && exists n :: FirstFlaw(r.tags, n, TagsDuplicate)
    case ScopeMismatch =>
      && now.valid && scope.wellFormed && LT.ValidInstanceID(r.id)
      && (Placed(scope, r, now) ==> Unambiguous(r.tags) && !InScope(scope, r))
    case ExpiryMissing | ExpiryDuplicate | ExpiryInvalid =>
      now.valid && InScope(scope, r) && Inspected(r.tags) == Unusable(why)
    case ExpiryFuture =>
      && now.valid && InScope(scope, r) && Inspected(r.tags).Usable? && Inspected(r.tags).value.Deadline?
      && now.nanos < Inspected(r.tags).value.nanos
    case Expired => Due(scope, r, now) && Live(r.state)
    case AlreadyTerminating => Due(scope, r, now) && r.state.ShuttingDown?
    case AlreadyTerminated => Due(scope, r, now) && r.state.Terminated?
    case StateUnknown => Due(scope, r, now) && r.state.OtherState?
    case ExpiryChanged | ResourceChanged => false
  }

  /** One observation has one reason. */
  lemma OneReason(scope: Scope, r: Resource, now: Clock, a: Reason, b: Reason)
    requires Warrants(scope, r, now, a) && Warrants(scope, r, now, b)
    ensures a == b
  {
    hide LT.ValidInstanceID, Inspected;
    forall i, j, x, y | FirstFlaw(r.tags, i, x) && FirstFlaw(r.tags, j, y)
      ensures i == j && x == y && !Unambiguous(r.tags)
    {
      OneFlaw(r.tags, i, x, j, y);
    }
  }

  lemma OneFlaw(tags: seq<Tag>, i: nat, x: Reason, j: nat, y: Reason)
    requires FirstFlaw(tags, i, x) && FirstFlaw(tags, j, y)
    ensures i == j && x == y && !Unambiguous(tags)
  {
    if Unambiguous(tags) {
      ShorterUnambiguous(tags, |tags|, i + 1);
    }
    if i < j {
      ShorterUnambiguous(tags, j, i + 1);
    } else if j < i {
      ShorterUnambiguous(tags, i, j + 1);
    }
  }

  lemma ShorterUnambiguous(tags: seq<Tag>, n: nat, m: nat)
    requires m <= n <= |tags| && Unambiguous(tags[..n])
    ensures Unambiguous(tags[..m])
  {
    var a, b := tags[..m], tags[..n];
    forall t | t in a
      ensures t in b
    {
      var k :| 0 <= k < |a| && a[k] == t;
      assert b[k] == t;
    }
    forall i, j | 0 <= i < j < |a| && a[i].key != Some(EXPIRY_KEY)
      ensures a[i].key != a[j].key
    {
      assert a[i] == b[i] && a[j] == b[j];
    }
  }

  /** `Evaluate`. Exactly the live instances of the scope with one parsable deadline that has passed are eligible; every
      reason stands for its own condition, and a deadline is reported exactly when one was established. */
  method Evaluate(scope: Scope, r: Resource, now: Clock) returns (d: Decision)
    ensures d.id == r.id && d.state == r.state
    ensures d.eligible <==> Due(scope, r, now) && Live(r.state)
    ensures d.eligible <==> d.reason == Expired
    ensures Warrants(scope, r, now, d.reason)
    ensures d.expiresAt.Some? <==> now.valid && InScope(scope, r) && Inspected(r.tags).Usable?
    ensures d.expiresAt.Some? ==> Inspected(r.tags) == Usable(d.expiresAt.value)
    ensures d.reason == AlreadyTerminated <==> Due(scope, r, now) && r.state.Terminated?
    ensures d.reason == AlreadyTerminating <==> Due(scope, r, now) && r.state.ShuttingDown?
  {
    hide LT.ValidInstanceID, InScope, Inspected;
    d := Decision(r.id, r.state, None, false, ClockInvalid);
    var problem := CheckScope(scope, r, now);
    if problem.Some? {
      return d.(reason := problem.value);
    }
    var i := InspectTags(r.tags);
    InspectedShape(r.tags);
    if i.Unusable? {
      return d.(reason := i.reason);
    }
    d := d.(expiresAt := Some(i.value));
    if now.nanos < i.value.nanos {
      return d.(reason := ExpiryFuture);
    }
    match r.state
    case Pending | Running | Stopping | Stopped => return d.(eligible := true, reason := Expired);
    case ShuttingDown => return d.(reason := AlreadyTerminating);
    case Terminated => return d.(reason := AlreadyTerminated);
    case OtherState => return d.(reason := StateUnknown);
  }

  /** The checks before expiry is inspected: the clock, the scope, the identity, the place, and the tags of the
      scope. */
  method CheckScope(scope: Scope, r: Resource, now: Clock) returns (problem: Option<Reason>)
    ensures problem.None? <==> now.valid && InScope(scope, r)
    ensures problem.Some? ==>
              && Warrants(scope, r, now, problem.value)
              && problem.value in {ClockInvalid, ScopeInvalid, ResourceInvalid, ScopeMismatch, TagsInvalid,
                                   TagsDuplicate}
  {
    hide LT.ValidInstanceID, Inspected, FirstFlaw, Unambiguous, HasTag, Holds, Collected;
    if !now.valid {
      return Some(ClockInvalid);
    }
    if !scope.wellFormed {
      return Some(ScopeInvalid);
    }
    if !LT.ValidInstanceID(r.id) {
      return Some(ResourceInvalid);
    }
    if r.account != scope.account || r.region != scope.region {
      return Some(ScopeMismatch);
    }
    var tags, flaw := CollectTags(r.tags);
    if flaw.Some? {
      return flaw;
    }
    CollectedHas(r.tags, tags, "ManagedBy", "devbox");
    CollectedHas(r.tags, tags, "Deployment", scope.deployment);
    CollectedHas(r.tags, tags, "Owner", scope.owner);
    if !Holds(tags, "ManagedBy", "devbox") || !Holds(tags, "Deployment", scope.deployment)
       || !Holds(tags, "Owner", scope.owner) {
      return Some(ScopeMismatch);
    }
    return None;
  }

  lemma InspectedShape(tags: seq<Tag>)
    ensures Inspected(tags).Usable? ==> Inspected(tags).value.Deadline?
    ensures Inspected(tags).Unusable? ==> Inspected(tags).reason in {ExpiryDuplicate, ExpiryMissing, ExpiryInvalid}
  {
  }

  /** A map lookup in Go: a missing key reads as the empty text. The texts looked for are never empty. */
  predicate Holds(m: map<string, Value>, key: string, value: string) {
    key in m && m[key] == Text(value)
  }

  lemma CollectedHas(tags: seq<Tag>, m: map<string, Value>, key: string, value: string)
    requires key != EXPIRY_KEY && Collected(tags, m)
    ensures Holds(m, key, value) <==> HasTag(tags, key, value)
  {
  }

  /** A tag that is malformed, or repeats the key of the tag at `k`, is the first flaw behind unambiguous ones. */
  lemma Spoils(tags: seq<Tag>, n: nat, k: nat)
    requires n < |tags| && k <= n && Unambiguous(tags[..n])
    requires tags[n].key.None? || tags[n].key.value == "" || (tags[n].key.value != EXPIRY_KEY && tags[n].value.None?)
             || (k < n && tags[k].key == tags[n].key && tags[n].key.value != EXPIRY_KEY)
    ensures !Unambiguous(tags)
    ensures FirstFlaw(tags, n, if tags[n].key.None? || tags[n].key.value == ""
                                  || (tags[n].key.value != EXPIRY_KEY && tags[n].value.None?)
                               then TagsInvalid else TagsDuplicate)
  {
    var next := tags[..n + 1];
    assert next[n] == tags[n] && next[k] == tags[k] && tags[n] in next && tags[n] in tags;
  }

  lemma NoTags()
    ensures Unambiguous([]) && Collected([], map[])
  {
  }

  /** The tag whose key was collected before. */
  lemma Earlier(tags: seq<Tag>, n: nat, m: map<string, Value>) returns (k: nat)
    requires n < |tags| && Collected(tags[..n], m) && tags[n].key.Some? && tags[n].key.value in m
    ensures k < n && tags[k].key == tags[n].key
  {
    var u := Tag(tags[n].key, Some(m[tags[n].key.value]));
    k :| 0 <= k < n && tags[k] == u;
  }

  lemma OneTagMore(tags: seq<Tag>, n: nat, m: map<string, Value>)
    requires n < |tags| && Unambiguous(tags[..n]) && Collected(tags[..n], m)
    requires tags[n].key.Some? && tags[n].key.value != ""
    requires tags[n].key.value != EXPIRY_KEY ==> tags[n].value.Some? && tags[n].key.value !in m
    ensures Unambiguous(tags[..n + 1])
    ensures Collected(tags[..n + 1],
                      if tags[n].key.value == EXPIRY_KEY then m else m[tags[n].key.value := tags[n].value.value])
  {
    var next, t := tags[..n + 1], tags[n];
    assert next == tags[..n] + [t] && next[n] == t;
    assert forall u :: u in next <==> u in tags[..n] || u == t;
    forall i, j | 0 <= i < j < |next| && next[i].key != Some(EXPIRY_KEY)
      ensures next[i].key != next[j].key
    {
      assert next[i] == tags[..n][i] && tags[..n][i] in tags[..n];
    }
  }

  /** The loop that rejects ambiguous scope before expiry is inspected. */
  method CollectTags(tags: seq<Tag>) returns (m: map<string, Value>, problem: Option<Reason>)
    ensures problem.None? <==> Unambiguous(tags)
    ensures problem.None? ==> Collected(tags, m)
    ensures problem.Some? ==> problem.value in {TagsInvalid, TagsDuplicate}
    ensures problem.Some? ==> exists n :: FirstFlaw(tags, n, problem.value)
  {
    hide FirstFlaw, Unambiguous, Collected;
    m := map[];
    NoTags();
    for n := 0 to |tags|
      invariant Unambiguous(tags[..n]) && Collected(tags[..n], m)
    {
      var t := tags[n];
      if t.key.None? || t.key.value == "" {
        Spoils(tags, n, n);
        return m, Some(TagsInvalid);
      }
      if t.key.value != EXPIRY_KEY {
        if t.value.None? {
          Spoils(tags, n, n);
          return m, Some(TagsInvalid);
        }
        if t.key.value in m {
          var k := Earlier(tags, n, m);
          Spoils(tags, n, k);
          return m, Some(TagsDuplicate);
        }
      }
      OneTagMore(tags, n, m);
      if t.key.value != EXPIRY_KEY {
        m := m[t.key.value := t.value.value];
      }
    }
    assert tags[..|tags|] == tags;
    return m, None;
  }

  /** The selection is one that can be taken up again with this observation. */
  ghost predicate Resumes(selected: Decision, r: Resource) {
    selected.eligible && selected.reason == Expired && selected.expiresAt.Some? && selected.id == r.id
  }

  /** `Recheck`: fresh evidence for an earlier selection; another identity or deadline withdraws it, and otherwise the
      observation decides. */
  method Recheck(scope: Scope, selected: Decision, r: Resource, now: Clock) returns (d: Decision)
    ensures d.id == r.id && d.state == r.state
    ensures d.eligible <==>
              && Resumes(selected, r) && Due(scope, r, now) && Live(r.state)
              && Inspected(r.tags) == Usable(selected.expiresAt.value)
    ensures d.reason == ResourceChanged <==> !Resumes(selected, r)
    ensures d.reason == ExpiryChanged <==>
              && Resumes(selected, r) && now.valid && InScope(scope, r) && Inspected(r.tags).Usable?
              && Inspected(r.tags) != Usable(selected.expiresAt.value)
    ensures d.reason != ResourceChanged && d.reason != ExpiryChanged ==> Warrants(scope, r, now, d.reason)
    ensures d.eligible <==> d.reason == Expired
    ensures d.reason == AlreadyTerminated <==>
              && Resumes(selected, r) && Due(scope, r, now) && r.state.Terminated?
              && Inspected(r.tags) == Usable(selected.expiresAt.value)
    ensures d.reason == AlreadyTerminating <==>
              && Resumes(selected, r) && Due(scope, r, now) && r.state.ShuttingDown?
              && Inspected(r.tags) == Usable(selected.expiresAt.value)
    ensures d.expiresAt.Some? <==> now.valid && InScope(scope, r) && Inspected(r.tags).Usable?
    ensures d.expiresAt.Some? ==> Inspected(r.tags) == Usable(d.expiresAt.value)
  {
    hide LT.ValidInstanceID, InScope, Inspected;
    d := Evaluate(scope, r, now);
    if !selected.eligible || selected.reason != Expired || selected.expiresAt.None? || selected.id != r.id {
      return d.(eligible := false, reason := ResourceChanged);
    }
    if d.expiresAt.Some? && selected.expiresAt != d.expiresAt {
      return d.(eligible := false, reason := ExpiryChanged);
    }
  }
}
