/**
 * The Kubernetes API as the manager sees it: versioned objects by key, which an
 * environment may create, replace and delete before every single call.
 */
module ApiServer {
  import opened Common
  import opened Triple

  datatype Kind = MutatingWebhook | ValidatingWebhook | SecretKind

  datatype ObjectKey = ObjectKey(kind: Kind, namespace: string, name: string)

  datatype Service = Service(namespace: string, name: string)

  datatype Webhook = Webhook(name: string, service: Option<Service>, caBundle: PEM, rest: int)

  datatype SecretType = Opaque | TLS | OtherType(name: string)

  datatype Content =
    | WebhookConfiguration(webhooks: seq<Webhook>)
    | Secret(secretType: SecretType, data: map<string, PEM>)

  /**
   * An object, with the resource version under which it was stored, 0 if it never
   * was. `rest` stands for all fields that are of no concern here.
   */
  datatype Resource = Resource(version: nat, annotations: map<string, string>, content: Content, rest: int)

  predicate WellKinded(key: ObjectKey, resource: Resource) {
    key.kind == SecretKind <==> resource.content.Secret?
  }

  datatype Store = Store(objects: map<ObjectKey, Resource>, lastVersion: nat)

  predicate ValidStore(s: Store) {
    forall k <- s.objects :: WellKinded(k, s.objects[k]) && 0 < s.objects[k].version <= s.lastVersion
  }

  /** Every write gets a resource version of its own. */
  function Stored(s: Store, key: ObjectKey, resource: Resource): Store {
    Store(s.objects[key := resource.(version := s.lastVersion + 1)], s.lastVersion + 1)
  }

  // ---- The environment ----

  datatype Operation = Put(key: ObjectKey, resource: Resource) | Delete(key: ObjectKey)

  function Apply(s: Store, op: Operation): Store {
    match op
    case Put(k, resource) => if WellKinded(k, resource) then Stored(s, k, resource) else s
    case Delete(k) => Store(s.objects - {k}, s.lastVersion + 1)
  }

  function ApplyAll(s: Store, ops: seq<Operation>): Store
    decreases ops
  {
    if ops == [] then s else ApplyAll(Apply(s, ops[0]), ops[1..])
  }

  /** What happens before and to one call: some operations of others, and perhaps a failure. */
  datatype Turn = Turn(ops: seq<Operation>, fails: bool)

  function NextTurn(schedule: seq<Turn>): Turn {
    if schedule == [] then Turn([], false) else schedule[0]
  }

  function LaterTurns(schedule: seq<Turn>): seq<Turn> {
    if schedule == [] then [] else schedule[1..]
  }

  /** Nobody interferes and no call fails. */
  predicate Quiet(schedule: seq<Turn>) {
    forall t <- schedule :: t.ops == [] && !t.fails
  }

  lemma QuietTurns(schedule: seq<Turn>)
    requires Quiet(schedule)
    ensures NextTurn(schedule).ops == [] && !NextTurn(schedule).fails && Quiet(LaterTurns(schedule))
  {
    if schedule != [] {
      assert schedule[0] in schedule;
    }
  }

  // ---- The server ----

  datatype GetResult = Found(resource: Resource) | NotFound | Failed

  /** What a client did: what it found, or what it replaced, if anything, and by what. */
  datatype Event =
    | Read(key: ObjectKey, found: Option<Resource>)
    | Wrote(key: ObjectKey, replaced: Option<Resource>, stored: Resource)

  class Server {
    var objects: map<ObjectKey, Resource>
    var lastVersion: nat
    var schedule: seq<Turn>
    ghost var log: seq<Event>

    constructor (objects: map<ObjectKey, Resource>, lastVersion: nat, schedule: seq<Turn>)
      requires ValidStore(Store(objects, lastVersion))
      ensures Valid() && this.objects == objects && this.lastVersion == lastVersion
      ensures this.schedule == schedule && log == []
    {
      this.objects := objects;
      this.lastVersion := lastVersion;
      this.schedule := schedule;
      log := [];
    }

    ghost function State(): Store
      reads this
    {
      Store(objects, lastVersion)
    }

    ghost predicate Valid()
      reads this
    {
      ValidStore(State())
    }

    /** The store that the next call finds. */
    ghost function Before(): Store
      reads this
    {
      ApplyAll(State(), NextTurn(schedule).ops)
    }

    method TakeTurn() returns (turn: Turn)
      requires Valid()
      modifies this
      ensures Valid() && State() == old(Before()) && log == old(log)
      ensures turn == old(NextTurn(schedule)) && schedule == old(LaterTurns(schedule))
    {
      turn := NextTurn(schedule);
      schedule := LaterTurns(schedule);
      for i := 0 to |turn.ops|
        invariant ValidStore(State())
        invariant ApplyAll(State(), turn.ops[i..]) == old(Before())
        invariant log == old(log) && schedule == old(LaterTurns(schedule))
      {
        var next := Apply(Store(objects, lastVersion), turn.ops[i]);
        assert turn.ops[i..][1..] == turn.ops[i + 1..];
        objects, lastVersion := next.objects, next.lastVersion;
      }
    }

    method Get(key: ObjectKey) returns (r: GetResult)
      requires Valid()
      modifies this
      ensures Valid() && State() == old(Before()) && schedule == old(LaterTurns(schedule))
      ensures r.Failed? <==> old(NextTurn(schedule)).fails
      ensures r.Found? ==> key in objects && r.resource == objects[key]
      ensures r.NotFound? ==> key !in objects
      ensures log == if r.Failed? then old(log) else old(log) + [Read(key, if r.Found? then Some(r.resource) else None)]
    {
      var turn := TakeTurn();
      if turn.fails {
        return Failed;
      }
      if key in objects {
        r := Found(objects[key]);
        log := log + [Read(key, Some(objects[key]))];
      } else {
        r := NotFound;
        log := log + [Read(key, None)];
      }
    }

    /** Refused for an object that carries a resource version or exists already. */
    method Create(key: ObjectKey, resource: Resource) returns (ok: bool)
      requires Valid() && WellKinded(key, resource)
      modifies this
      ensures Valid() && schedule == old(LaterTurns(schedule))
      ensures ok <==> !old(NextTurn(schedule)).fails && resource.version == 0 && key !in old(Before()).objects
      ensures State() == if ok then Stored(old(Before()), key, resource) else old(Before())
      ensures log == if ok then old(log) + [Wrote(key, None, resource.(version := lastVersion))] else old(log)
    {
      var turn := TakeTurn();
      if turn.fails || resource.version != 0 || key in objects {
        return false;
      }
      objects, lastVersion := objects[key := resource.(version := lastVersion + 1)], lastVersion + 1;
      log := log + [Wrote(key, None, objects[key])];
      ok := true;
    }

    /** Refused unless the object carries the resource version that is stored. */
    method Update(key: ObjectKey, resource: Resource) returns (ok: bool)
      requires Valid() && WellKinded(key, resource)
      modifies this
      ensures Valid() && schedule == old(LaterTurns(schedule))
      ensures ok <==> !old(NextTurn(schedule)).fails && key in old(Before()).objects
                      && old(Before()).objects[key].version == resource.version
      ensures State() == if ok then Stored(old(Before()), key, resource) else old(Before())
      ensures log == if ok then old(log) + [Wrote(key, Some(old(Before()).objects[key]), resource.(version := lastVersion))]
                     else old(log)
    {
      var turn := TakeTurn();
      if turn.fails || key !in objects || objects[key].version != resource.version {
        return false;
      }
      ghost var replaced := objects[key];
      objects, lastVersion := objects[key := resource.(version := lastVersion + 1)], lastVersion + 1;
      log := log + [Wrote(key, Some(replaced), objects[key])];
      ok := true;
    }
  }

  // ---- Resource versions identify states of an object ----

  lemma {:induction false} ApplyAllValid(s: Store, ops: seq<Operation>)
    requires ValidStore(s)
    ensures ValidStore(ApplyAll(s, ops)) && s.lastVersion <= ApplyAll(s, ops).lastVersion
    decreases ops
  {
    if ops != [] {
      ApplyAllValid(Apply(s, ops[0]), ops[1..]);
    }
  }

  /** No object under this key that is that old is there any more, nor ever will be. */
  predicate Gone(s: Store, key: ObjectKey, version: nat) {
    version <= s.lastVersion && (key in s.objects ==> s.objects[key].version > version)
  }

  lemma {:induction false} GoneForGood(s: Store, ops: seq<Operation>, key: ObjectKey, version: nat)
    requires Gone(s, key, version)
    ensures Gone(ApplyAll(s, ops), key, version)
    decreases ops
  {
    if ops != [] {
      GoneForGood(Apply(s, ops[0]), ops[1..], key, version);
    }
  }

  predicate Touches(op: Operation, key: ObjectKey) {
    op.key == key && (op.Put? ==> WellKinded(key, op.resource))
  }

  /**
   * An object found again under the resource version it had before was not
   * touched in between: whatever others did, none of it concerned this object.
   */
  lemma {:induction false} SameVersionUntouched(s: Store, ops: seq<Operation>, key: ObjectKey)
    requires ValidStore(s) && key in s.objects
    ensures var t := ApplyAll(s, ops);
            (key in t.objects && t.objects[key].version == s.objects[key].version)
            <==> forall i :: 0 <= i < |ops| ==> !Touches(ops[i], key)
    ensures (forall i :: 0 <= i < |ops| ==> !Touches(ops[i], key)) ==>
              key in ApplyAll(s, ops).objects && ApplyAll(s, ops).objects[key] == s.objects[key]
    decreases ops
  {
    if ops != [] {
      var next := Apply(s, ops[0]);
      if Touches(ops[0], key) {
        GoneForGood(next, ops[1..], key, s.objects[key].version);
      } else {
        assert key in next.objects && next.objects[key] == s.objects[key];
        SameVersionUntouched(next, ops[1..], key);
        assert forall i :: 0 <= i < |ops[1..]| ==> ops[1..][i] == ops[i + 1];
        assert (forall i :: 0 <= i < |ops| ==> !Touches(ops[i], key))
               <==> forall i :: 0 <= i < |ops[1..]| ==> !Touches(ops[1..][i], key);
      }
    }
  }
}
