/**
 * The decisions of the storage REST routes: which back-end serves a
 * subsystem, which exceptions become which HTTP errors, which back-end
 * operation a POST or PATCH asks for, and how the lock is rendered.
 *
 * The back-end operations themselves are parameters: a function from the
 * back-end chosen to what its operation returned or raised.
 */
module StorageApi {
  import opened Common
  import opened DictUtils

  // -----------------------------------------------------------------------
  // Back-ends

  /** The subsystem names, in the order the table lists them. */
  const Subsystems: seq<string> := ["netapp", "ceph", "dummy"]

  /** `SUBSYSTEM_MAPPING`: subsystem to the name the back-end is installed under. */
  const SubsystemMapping: map<string, string> :=
    map["netapp" := "NetappStorage", "ceph" := "DummyStorage", "dummy" := "DummyStorage"]

  /** `sep.join(parts)`. */
  function JoinWith(parts: seq<string>, sep: string): (s: string)
    ensures |parts| == 1 ==> s == parts[0]
  {
    if parts == [] then ""
    else if |parts| == 1 then parts[0]
    else parts[0] + sep + JoinWith(parts[1..], sep)
  }

  /** The 404 message for an unknown subsystem. */
  function NoSuchSubsystem(): string
  {
    "No such subsystem. Allowed values are: " + JoinWith(Subsystems, ", ")
  }

  /** The table sends NetApp to its own back-end and the other two to the dummy one; the message lists all three. */
  lemma SubsystemTable()
    ensures SubsystemMapping.Keys == set s | s in Subsystems
    ensures SubsystemMapping["netapp"] == "NetappStorage"
    ensures SubsystemMapping["ceph"] == "DummyStorage" && SubsystemMapping["dummy"] == "DummyStorage"
    ensures NoSuchSubsystem() == "No such subsystem. Allowed values are: netapp, ceph, dummy"
  {
    assert JoinWith(["dummy"], ", ") == "dummy";
    assert JoinWith(["ceph", "dummy"], ", ") == "ceph" + ", " + JoinWith(["dummy"], ", ");
    assert Subsystems[1..] == ["ceph", "dummy"];
  }

  // -----------------------------------------------------------------------
  // Exceptions and HTTP errors

  /** How a route ends: a value, an exception no handler caught, or an abort with a status code. */
  datatype Flow<T> = Returns(value: T) | Throws(exc: Exception) | Aborts(code: int, message: string)

  /** The exception classes the handlers name. */
  datatype Kind = KeyErrorKind | ValueErrorKind

  predicate Catches(kind: Kind, e: Exception)
  {
    match kind
    case KeyErrorKind => e.KeyError?
    case ValueErrorKind => e.ValueError?
  }

  /** `str(e)`: a `KeyError` shows its key quoted, the others their argument. */
  function Str(e: Exception): string
  {
    match e
    case KeyError(k) => "'" + k + "'"
    case ValueError(m) => m
    case AssertionError(m) => m
    case StorageException(m) => m
    case _ => ""
  }

  /** `exception_is_errorcode(api, exception, error_code, message)` as a value. */
  datatype Handler = Handler(kind: Kind, code: int, message: Option<string>)

  const KeyErrorIs404 := Handler(KeyErrorKind, 404, None)
  const KeyErrorIs400 := Handler(KeyErrorKind, 400, None)
  const ValueErrorIs400 := Handler(ValueErrorKind, 400, None)

  /** One handler around a computation: its kind of exception aborts, with `str(e)` unless a message is given. */
  function WithHandler<T>(h: Handler, f: Flow<T>): (r: Flow<T>)
    ensures r.Returns? <==> f.Returns?
    ensures !(f.Throws? && Catches(h.kind, f.exc)) ==> r == f
    ensures f.Throws? && Catches(h.kind, f.exc) ==>
              r.Aborts? && r.code == h.code && r.message == (if h.message.Some? then h.message.value else Str(f.exc))
  {
    if f.Throws? && Catches(h.kind, f.exc) then
      Aborts(h.code, if h.message.Some? then h.message.value else Str(f.exc))
    else f
  }

  /** `with h0, h1, ...:`: the innermost handler, the last one listed, sees the exception first. */
  function Guarded<T>(hs: seq<Handler>, f: Flow<T>): (r: Flow<T>)
    ensures r.Returns? <==> f.Returns?
    ensures r.Returns? ==> r == f
    // an exception is either left as it is or turned into an abort
    ensures r.Throws? ==> r == f
    ensures f.Aborts? ==> r == f
  {
    if hs == [] then f else WithHandler(hs[0], Guarded(hs[1..], f))
  }

  /** The position of the innermost handler that catches `e`, or -1 if none does. */
  function Innermost(hs: seq<Handler>, e: Exception): (i: int)
    ensures -1 <= i < |hs|
    ensures i >= 0 ==> Catches(hs[i].kind, e) && forall j :: i < j < |hs| ==> !Catches(hs[j].kind, e)
    ensures i == -1 ==> forall j :: 0 <= j < |hs| ==> !Catches(hs[j].kind, e)
  {
    if hs == [] then -1
    else if Catches(hs[|hs| - 1].kind, e) then |hs| - 1
    else Innermost(hs[..|hs| - 1], e)
  }

  /**
   * Nested handlers: a value and an abort pass through all of them; an
   * exception is turned into an abort by the innermost handler of its kind
   * (an abort is not caught again), and passes through when none catches it.
   */
  lemma {:induction false} GuardedOutcome<T>(hs: seq<Handler>, f: Flow<T>)
    ensures !f.Throws? ==> Guarded(hs, f) == f
    ensures f.Throws? && Innermost(hs, f.exc) == -1 ==> Guarded(hs, f) == f
    ensures f.Throws? && Innermost(hs, f.exc) >= 0 ==>
              var h := hs[Innermost(hs, f.exc)];
              Guarded(hs, f) == Aborts(h.code, if h.message.Some? then h.message.value else Str(f.exc))
  {
    if hs != [] {
      GuardedOutcome(hs[1..], f);
      if f.Throws? {
        var e := f.exc;
        InnermostOfTail(hs, e);
      }
    }
  }

  /** Where the innermost catching handler sits once the outermost handler is set aside. */
  lemma InnermostOfTail(hs: seq<Handler>, e: Exception)
    requires hs != []
    ensures Innermost(hs[1..], e) >= 0 ==> Innermost(hs, e) == Innermost(hs[1..], e) + 1
    ensures Innermost(hs[1..], e) == -1 ==> Innermost(hs, e) == (if Catches(hs[0].kind, e) then 0 else -1)
  {
    var i := Innermost(hs, e);
    var t := Innermost(hs[1..], e);
    assert forall j :: 1 <= j < |hs| ==> hs[j] == hs[1..][j - 1];
    if t >= 0 {
      assert i >= t + 1;
      assert i <= t + 1;
    }
  }

  /**
   * The status the client sees: the route's own code, the abort's code, or
   * 500 from the default error handler for an exception nothing caught.
   */
  function Status(f: Flow<int>): (code: int)
    ensures f.Throws? ==> code == 500
  {
    match f
    case Returns(c) => c
    case Aborts(c, _) => c
    case Throws(_) => 500
  }

  /** An unfinished flow, carried over to another result type. */
  function Carry<A, B>(f: Flow<A>): (r: Flow<B>)
    requires !f.Returns?
    ensures r.Throws? <==> f.Throws?
  {
    if f.Throws? then Throws(f.exc) else Aborts(f.code, f.message)
  }

  // -----------------------------------------------------------------------
  // Choosing the back-end

  /**
   * `backend(name)`: an unknown subsystem aborts with 404; a back-end that
   * is not installed is replaced by the dummy one (whose own absence
   * raises `KeyError`). `installed` holds the names in `current_app.extensions`.
   */
  function Backend(name: string, installed: set<string>): (r: Flow<string>)
    ensures name !in SubsystemMapping ==> r == Aborts(404, NoSuchSubsystem())
    ensures name in SubsystemMapping && SubsystemMapping[name] in installed ==> r == Returns(SubsystemMapping[name])
    ensures name in SubsystemMapping && SubsystemMapping[name] !in installed ==>
              r == if "DummyStorage" in installed then Returns("DummyStorage") else Throws(KeyError("DummyStorage"))
    ensures r.Returns? ==> r.value in installed
  {
    var looked := if name in SubsystemMapping then Returns(SubsystemMapping[name]) else Throws(KeyError(name));
    var canonical := WithHandler(Handler(KeyErrorKind, 404, Some(NoSuchSubsystem())), looked);
    if !canonical.Returns? then Carry(canonical)
    else if canonical.value in installed then Returns(canonical.value)
    else if "DummyStorage" in installed then Returns("DummyStorage")
    else Throws(KeyError("DummyStorage"))
  }

  /** `backend(subsystem).<operation>(...)`: the operation runs on the back-end chosen. */
  function Call<T>(subsystem: string, installed: set<string>, op: string -> Result<T>): (r: Flow<T>)
    ensures Backend(subsystem, installed).Returns? && op(Backend(subsystem, installed).value).Ok? ==>
              r == Returns(op(Backend(subsystem, installed).value).value)
    ensures Backend(subsystem, installed).Returns? && op(Backend(subsystem, installed).value).Raised? ==>
              r == Throws(op(Backend(subsystem, installed).value).exc)
    ensures !Backend(subsystem, installed).Returns? ==> r == Carry(Backend(subsystem, installed))
  {
    var b := Backend(subsystem, installed);
    if !b.Returns? then Carry(b)
    else match op(b.value)
      case Ok(v) => Returns(v)
      case Raised(e) => Throws(e)
  }

  /** A completed call answered with a status code. */
  function Answer(f: Flow<()>, code: int): (r: Flow<int>)
    ensures f.Returns? ==> r == Returns(code)
    ensures !f.Returns? ==> r == Carry(f)
  {
    if f.Returns? then Returns(code) else Carry(f)
  }

  // -----------------------------------------------------------------------
  // The volume routes

  /** `t in s` for strings. */
  predicate HasSubstring(s: string, t: string)
    decreases |s|
  {
    |t| <= |s| && (s[..|t|] == t || (s != [] && HasSubstring(s[1..], t)))
  }

  /** A field of a request body after marshalling. */
  datatype Field = FStr(s: string) | FInt(i: int) | FBool(b: bool)

  /** Python truthiness of a marshalled field. */
  predicate FieldTruthy(f: Option<Field>)
  {
    f.Some? &&
    match f.value
    case FStr(s) => s != ""
    case FInt(i) => i != 0
    case FBool(b) => b
  }

  /** A request body as `marshal` returns it: every field of the model is present, `None` when not sent. */
  type Body = map<string, Option<Field>>

  /** The fields of `optional_from_snapshot` that the POST route reads. */
  predicate PostBody(data: Body)
  {
    "from_snapshot" in data && "from_volume" in data && "name" in data
  }

  /** The back-end operation a POST asks for. */
  datatype PostCall =
    | CloneCall(volume: string, fromVolume: Field, fromSnapshot: Field)
    | RollbackCall(volume: string, snapshot: Field)
    | CreateCall(volume: string, fields: Body)

  /**
   * The POST branch: a clone when both `from_volume` and `from_snapshot`
   * are set, a rollback when only `from_snapshot` is, and otherwise a
   * creation with the other fields.
   */
  function PostChoice(volumeName: string, data: Body): (c: PostCall)
    requires PostBody(data)
    ensures c.CloneCall? <==> FieldTruthy(data["from_volume"]) && FieldTruthy(data["from_snapshot"])
    ensures c.RollbackCall? <==> !FieldTruthy(data["from_volume"]) && FieldTruthy(data["from_snapshot"])
    ensures c.CreateCall? <==> !FieldTruthy(data["from_snapshot"])
    ensures c.volume == volumeName
    ensures c.CreateCall? ==>
              && c.fields.Keys == data.Keys - {"from_snapshot", "from_volume", "name"}
              && forall k :: k in c.fields ==> c.fields[k] == data[k]
  {
    if FieldTruthy(data["from_volume"]) && FieldTruthy(data["from_snapshot"]) then
      CloneCall(volumeName, data["from_volume"].value, data["from_snapshot"].value)
    else if FieldTruthy(data["from_snapshot"]) then
      RollbackCall(volumeName, data["from_snapshot"].value)
    else
      var removed := ["from_snapshot", "from_volume", "name"];
      assert Distinct(removed);
      assert (set k | k in removed) == {"from_snapshot", "from_volume", "name"};
      CreateCall(volumeName, DictWithout(data, removed).value)
  }

  /** The handlers around each POST branch. */
  function PostHandlers(c: PostCall): seq<Handler>
  {
    match c
    case CloneCall(_, _, _) => [KeyErrorIs404, ValueErrorIs400]
    case RollbackCall(_, _) => [KeyErrorIs404]
    case CreateCall(_, _) => [ValueErrorIs400, KeyErrorIs400]
  }

  /** A path naming a snapshot is refused by every volume route. */
  const RouteAssertion := AssertionError("")

  /**
   * `Volume.post`: the operation chosen (`None` when the back-end could not
   * be chosen) and the outcome; a clone answers 201, the others 200.
   */
  function VolumePost(subsystem: string, installed: set<string>, volumeName: string, data: Body,
                      op: string -> Result<()>): (out: (Option<PostCall>, Flow<int>))
    requires PostBody(data)
    ensures HasSubstring(volumeName, "/snapshots") ==> out == (None, Throws(RouteAssertion))
    ensures !HasSubstring(volumeName, "/snapshots") ==>
              (out.0.Some? <==> Backend(subsystem, installed).Returns?) &&
              (out.0.Some? ==> out.0.value == PostChoice(volumeName, data))
    ensures !HasSubstring(volumeName, "/snapshots") && Backend(subsystem, installed).Returns? &&
            op(Backend(subsystem, installed).value).Ok? ==>
              out.1 == Returns(if PostChoice(volumeName, data).CloneCall? then 201 else 200)
  {
    GuardedOutcome(PostHandlers(PostChoice(volumeName, data)), Call(subsystem, installed, op));
    if HasSubstring(volumeName, "/snapshots") then (None, Throws(RouteAssertion))
    else
      var choice := PostChoice(volumeName, data);
      var call := if Backend(subsystem, installed).Returns? then Some(choice) else None;
      var code := if choice.CloneCall? then 201 else 200;
      (call, Answer(Guarded(PostHandlers(choice), Call(subsystem, installed, op)), code))
  }

  const NoPatchData := "No PATCH data provided!"

  /**
   * `Volume.patch`: the fields handed to `patch_volume` (`None` when it is
   * not called) and the outcome.
   */
  function VolumePatch(subsystem: string, installed: set<string>, volumeName: string, data: Body,
                       op: string -> Result<()>): (out: (Option<Body>, Flow<int>))
    ensures !HasSubstring(volumeName, "/snapshots") && (forall k :: k in data ==> data[k].None?) ==>
              out == (None, Aborts(400, NoPatchData))
    ensures out.0.Some? ==>
              && Backend(subsystem, installed).Returns?
              && out.0.value.Keys == (set k | k in data && data[k].Some?)
              && (forall k :: k in out.0.value ==> out.0.value[k] == data[k])
    ensures HasSubstring(volumeName, "/snapshots") ==> out == (None, Throws(RouteAssertion))
    // with some field set, the back-end is called whenever it can be chosen, and answers 200 or 404
    ensures !HasSubstring(volumeName, "/snapshots") && (exists k :: k in data && data[k].Some?) ==>
              && (out.0.Some? <==> Backend(subsystem, installed).Returns?)
              && (Backend(subsystem, installed).Returns? && op(Backend(subsystem, installed).value).Ok? ==>
                    out.1 == Returns(200))
              && (Backend(subsystem, installed).Returns? && op(Backend(subsystem, installed).value).Raised? ==>
                    var e := op(Backend(subsystem, installed).value).exc;
                    out.1 == if e.KeyError? then Aborts(404, Str(e)) else Throws(e))
  {
    GuardedOutcome([KeyErrorIs404], Call(subsystem, installed, op));
    if HasSubstring(volumeName, "/snapshots") then (None, Throws(RouteAssertion))
    else
      var fields := FilterNone(data);
      if fields == map[] then
        assert forall k :: k in data && data[k].Some? ==> k in fields;
        assert forall k :: k in data ==> data[k].None?;
        (None, Aborts(400, NoPatchData))
      else
        var call := if Backend(subsystem, installed).Returns? then Some(fields) else None;
        (call, Answer(Guarded([KeyErrorIs404], Call(subsystem, installed, op)), 200))
  }

  /** `Volume.get`. */
  function VolumeGet<V>(subsystem: string, installed: set<string>, volumeName: string,
                        op: string -> Result<V>): (r: Flow<V>)
    ensures HasSubstring(volumeName, "/snapshots") ==> r == Throws(RouteAssertion)
    // the back-end's volume, a 404 for a missing one, any other exception as raised
    ensures !HasSubstring(volumeName, "/snapshots") && Backend(subsystem, installed).Returns? ==>
              var res := op(Backend(subsystem, installed).value);
              && (res.Ok? ==> r == Returns(res.value))
              && (res.Raised? ==> r == if res.exc.KeyError? then Aborts(404, Str(res.exc)) else Throws(res.exc))
  {
    GuardedOutcome([KeyErrorIs404], Call(subsystem, installed, op));
    if HasSubstring(volumeName, "/snapshots") then Throws(RouteAssertion)
    else Guarded([KeyErrorIs404], Call(subsystem, installed, op))
  }

  /** `Volume.delete`: 204 once the volume is restricted. */
  function VolumeDelete(subsystem: string, installed: set<string>, volumeName: string,
                        op: string -> Result<()>): (r: Flow<int>)
    ensures HasSubstring(volumeName, "/snapshots") ==> r == Throws(RouteAssertion)
    ensures !HasSubstring(volumeName, "/snapshots") && Backend(subsystem, installed).Returns? ==>
              var res := op(Backend(subsystem, installed).value);
              && (res.Ok? ==> r == Returns(204))
              && (res.Raised? ==> r == if res.exc.KeyError? then Aborts(404, Str(res.exc)) else Throws(res.exc))
  {
    GuardedOutcome([KeyErrorIs404], Call(subsystem, installed, op));
    if HasSubstring(volumeName, "/snapshots") then Throws(RouteAssertion)
    else Answer(Guarded([KeyErrorIs404], Call(subsystem, installed, op)), 204)
  }

  /**
   * A `KeyError` from the back-end is a 400 when creating a volume and a
   * 404 when reading, restricting, cloning or rolling back; a `ValueError`
   * is a 400 for a creation or a clone.
   */
  lemma KeyErrorStatus(subsystem: string, installed: set<string>, volumeName: string, data: Body,
                       op: string -> Result<()>)
    requires PostBody(data)
    requires !HasSubstring(volumeName, "/snapshots")
    requires Backend(subsystem, installed).Returns?
    requires op(Backend(subsystem, installed).value).Raised?
    ensures var e := op(Backend(subsystem, installed).value).exc;
            var post := VolumePost(subsystem, installed, volumeName, data, op).1;
            var choice := PostChoice(volumeName, data);
            && (e.KeyError? ==> Status(post) == (if choice.CreateCall? then 400 else 404))
            && (e.KeyError? ==> Status(VolumeDelete(subsystem, installed, volumeName, op)) == 404)
            && (e.ValueError? && !choice.RollbackCall? ==> Status(post) == 400)
            && (e.ValueError? && choice.RollbackCall? ==> Status(post) == 500)
  {
    var e := op(Backend(subsystem, installed).value).exc;
    var choice := PostChoice(volumeName, data);
    GuardedOutcome(PostHandlers(choice), Call(subsystem, installed, op));
    GuardedOutcome([KeyErrorIs404], Call(subsystem, installed, op));
  }

  /** `Volume.get` on a missing volume answers 404 with the back-end's message. */
  lemma MissingVolumeIs404<V>(subsystem: string, installed: set<string>, volumeName: string, op: string -> Result<V>)
    requires !HasSubstring(volumeName, "/snapshots")
    requires Backend(subsystem, installed).Returns?
    requires op(Backend(subsystem, installed).value).Raised?
    requires op(Backend(subsystem, installed).value).exc.KeyError?
    ensures VolumeGet(subsystem, installed, volumeName, op) ==
              Aborts(404, Str(op(Backend(subsystem, installed).value).exc))
  {
    GuardedOutcome([KeyErrorIs404], Call(subsystem, installed, op));
  }

  /** An unknown subsystem answers 404 on every route, whatever the handlers. */
  lemma UnknownSubsystem(subsystem: string, installed: set<string>, volumeName: string, data: Body,
                         op: string -> Result<()>)
    requires PostBody(data)
    requires !HasSubstring(volumeName, "/snapshots")
    requires subsystem !in SubsystemMapping
    ensures VolumePost(subsystem, installed, volumeName, data, op).1 == Aborts(404, NoSuchSubsystem())
    ensures VolumeDelete(subsystem, installed, volumeName, op) == Aborts(404, NoSuchSubsystem())
    ensures (exists k :: k in data && data[k].Some?) ==>
              VolumePatch(subsystem, installed, volumeName, data, op) == (None, Aborts(404, NoSuchSubsystem()))
  {
    if exists k :: k in data && data[k].Some? {
      var k :| k in data && data[k].Some?;
      assert k in FilterNone(data);
    }
    var choice := PostChoice(volumeName, data);
    GuardedOutcome(PostHandlers(choice), Call(subsystem, installed, op));
    GuardedOutcome([KeyErrorIs404], Call(subsystem, installed, op));
  }

  // -----------------------------------------------------------------------
  // Locks

  /** The lock listing: no lock is an empty list, a holder a one-element list naming it. */
  function RenderLock(lock: Option<string>): (r: seq<map<string, string>>)
    ensures |r| <= 1
    ensures r == [] <==> lock.None?
    ensures lock.Some? ==> r[0].Keys == {"host"} && r[0]["host"] == lock.value
  {
    if lock.None? then [] else [map["host" := lock.value]]
  }

  /** `AllLocks.get`. */
  function LocksGet(subsystem: string, installed: set<string>, op: string -> Result<Option<string>>)
    : (r: Flow<seq<map<string, string>>>)
    ensures Backend(subsystem, installed).Returns? && op(Backend(subsystem, installed).value).Ok? ==>
              r == Returns(RenderLock(op(Backend(subsystem, installed).value).value))
    ensures Backend(subsystem, installed).Returns? && op(Backend(subsystem, installed).value).Raised? ==>
              var e := op(Backend(subsystem, installed).value).exc;
              r == if e.KeyError? then Aborts(404, Str(e)) else Throws(e)
  {
    GuardedOutcome([KeyErrorIs404], Call(subsystem, installed, op));
    var f := Guarded([KeyErrorIs404], Call(subsystem, installed, op));
    if f.Returns? then Returns(RenderLock(f.value)) else Carry(f)
  }

  /** `Locks.put`: 201 once the lock is taken; a held lock is a 400 and a missing volume a 404. */
  function LockPut(subsystem: string, installed: set<string>, op: string -> Result<()>): (r: Flow<int>)
    ensures Backend(subsystem, installed).Returns? && op(Backend(subsystem, installed).value).Raised? ==>
              var e := op(Backend(subsystem, installed).value).exc;
              (e.ValueError? ==> r == Aborts(400, Str(e))) && (e.KeyError? ==> r == Aborts(404, Str(e)))
    ensures Backend(subsystem, installed).Returns? && op(Backend(subsystem, installed).value).Ok? ==>
              r == Returns(201)
  {
    GuardedOutcome([ValueErrorIs400, KeyErrorIs404], Call(subsystem, installed, op));
    Answer(Guarded([ValueErrorIs400, KeyErrorIs404], Call(subsystem, installed, op)), 201)
  }
}
