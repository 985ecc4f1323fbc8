/**
 * The in-memory reference back-end `DummyStorage` of extensions/storage.py.
 *
 * It keeps four dictionaries: `vols` (volume name to its record),
 * `locks_store` (volume name to the host holding its lock), `rules_store`
 * (volume name to its policies, each a list of client-match rules) and
 * `snapshots_store` (volume name to its snapshots). Every operation is a
 * lookup or an update of these maps and reports a missing entity by raising
 * `KeyError` and invalid input by raising `ValueError`.
 *
 * Volume records are mutable dictionaries that `clone_volume` shares between
 * two names, so they are heap objects here (class VolumeRecord) and `vols`
 * maps names to them; the other stores hold values.
 *
 * The model follows the code where the code departs from the documented
 * back-end contract (extensions/storage.py:81-346); each departure is stated
 * at the operation concerned.
 */
module DummyBackend {
  import opened Common
  import opened DictUtils
  import opened RuleLists

  /** A value held in a volume record. */
  datatype Value = IntV(i: int) | StrV(s: string) | BoolV(b: bool) | NoneV

  type Record = map<string, Value>

  /** The record stored for a snapshot: `{'name': snapshot_name}`. */
  datatype Snapshot = Snapshot(name: string)

  /** `vol_404(volume_name)`: the message of every "no such volume" error. */
  function VolumeNotFound(volumeName: string): (msg: string)
    ensures |msg| == 16 + |volumeName|
    ensures msg[..16] == "No such volume: " && msg[16..] == volumeName
  {
    "No such volume: " + volumeName
  }

  /** The message of `raise_if_snapshot_absent`. */
  function SnapshotNotFound(volumeName: string, snapshotName: string): (msg: string)
    ensures |msg| == 41 + |volumeName| + |snapshotName|
    ensures msg[..36] == "No such snapshot exists for volume '" && msg[36..36 + |volumeName|] == volumeName
    ensures msg[36 + |volumeName|..40 + |volumeName|] == "': '" && msg[40 + |volumeName|..|msg| - 1] == snapshotName
  {
    "No such snapshot exists for volume '" + volumeName + "': '" + snapshotName + "'"
  }

  /**
   * `with annotate_exception(KeyError, annotation)`: a `KeyError` raised by
   * the guarded code is replaced by a `KeyError` carrying `annotation`; any
   * other outcome passes through.
   */
  function AnnotateKeyError<T>(r: Result<T>, annotation: string): (a: Result<T>)
    ensures r.Ok? ==> a == r
    ensures r.Raised? && r.exc.KeyError? ==> a == Raised(KeyError(annotation))
    ensures r.Raised? && !r.exc.KeyError? ==> a == r
  {
    if r.Raised? && r.exc.KeyError? then Raised(KeyError(annotation)) else r
  }

  /** `d[k]` on a Python dictionary: a missing key raises `KeyError(k)`. */
  function Lookup<V>(d: map<string, V>, k: string): Result<V>
  {
    if k in d then Ok(d[k]) else Raised(KeyError(k))
  }

  /** The default fields of `create_volume`, overridden by the caller's fields. */
  function NewVolumeRecord(volumeName: string, fields: Record): (rec: Record)
    ensures rec.Keys == {"name", "size_used", "size_total", "filer_address"} + fields.Keys
    ensures forall k :: k in fields ==> rec[k] == fields[k]
    ensures "name" !in fields ==> rec["name"] == StrV(volumeName)
    ensures "size_used" !in fields ==> rec["size_used"] == IntV(0)
    ensures "size_total" !in fields ==> rec["size_total"] == IntV(0)
    ensures "filer_address" !in fields ==> rec["filer_address"] == StrV("dummy-filer")
  {
    var defaults := map[
      "name" := StrV(volumeName),
      "size_used" := IntV(0),
      "size_total" := if "size_total" in fields then fields["size_total"] else IntV(0),
      "filer_address" := if "filer_address" in fields then fields["filer_address"] else StrV("dummy-filer")];
    defaults + fields
  }

  /** A volume's record: a dictionary that several volume names may share. */
  class VolumeRecord {
    var fields: Record

    constructor (fields: Record)
      ensures this.fields == fields
    {
      this.fields := fields;
    }
  }

  class DummyStorage {
    var vols: map<string, VolumeRecord>
    var locksStore: map<string, string>
    var rulesStore: map<string, map<string, seq<string>>>
    var snapshotsStore: map<string, map<string, Snapshot>>

    /**
     * What every operation keeps: locks, policies and snapshots belong to
     * volumes that exist, and no policy lists a rule twice.
     */
    ghost predicate Valid()
      reads this
    {
      && locksStore.Keys <= vols.Keys
      && rulesStore.Keys <= vols.Keys
      && snapshotsStore.Keys <= vols.Keys
      && forall v, p :: v in rulesStore && p in rulesStore[v] ==> Distinct(rulesStore[v][p])
    }

    /** The contents of every volume record, by volume name. */
    function View(): map<string, Record>
      reads this, vols.Values
    {
      map v | v in vols :: vols[v].fields
    }

    constructor ()
      ensures Valid()
      ensures vols == map[] && locksStore == map[] && rulesStore == map[] && snapshotsStore == map[]
    {
      vols, locksStore, rulesStore, snapshotsStore := map[], map[], map[], map[];
    }

    /** `raise_if_volume_absent`. */
    function CheckVolume(volumeName: string): (r: Result<()>)
      reads this
      ensures r.Ok? <==> volumeName in vols
      ensures r.Raised? ==> r.exc == KeyError(VolumeNotFound(volumeName))
    {
      if volumeName in vols then Ok(()) else Raised(KeyError(VolumeNotFound(volumeName)))
    }

    /**
     * `raise_if_snapshot_absent`: the volume check first, then the volume's
     * snapshot store (a bare lookup, so a volume without one, such as a clone,
     * raises `KeyError(volume_name)`), then the snapshot itself.
     */
    function CheckSnapshot(volumeName: string, snapshotName: string): (r: Result<()>)
      reads this
      ensures r.Ok? <==> volumeName in vols && volumeName in snapshotsStore
                          && snapshotName in snapshotsStore[volumeName]
      ensures volumeName !in vols ==> r == Raised(KeyError(VolumeNotFound(volumeName)))
      ensures volumeName in vols && volumeName !in snapshotsStore ==> r == Raised(KeyError(volumeName))
      ensures volumeName in vols && volumeName in snapshotsStore && snapshotName !in snapshotsStore[volumeName]
              ==> r == Raised(KeyError(SnapshotNotFound(volumeName, snapshotName)))
    {
      if CheckVolume(volumeName).Raised? then CheckVolume(volumeName)
      else match Lookup(snapshotsStore, volumeName)
        case Raised(e) => Raised(e)
        case Ok(snaps) =>
          if snapshotName !in snaps
          then Raised(KeyError(SnapshotNotFound(volumeName, snapshotName)))
          else Ok(())
    }

    /** The `volumes` property: every stored record, one per volume name. */
    method Volumes() returns (vs: seq<Record>, ghost names: seq<string>)
      ensures |vs| == |names| == |vols|
      ensures forall v :: v in names <==> v in vols
      ensures forall i :: 0 <= i < |vs| ==> names[i] in vols && vs[i] == vols[names[i]].fields
    {
      assert View().Keys == vols.Keys;
      vs, names := ListValues(View());
    }

    /** `get_volume`: the stored record, or "No such volume". */
    method GetVolume(volumeName: string) returns (r: Result<Record>)
      ensures volumeName in vols ==> r == Ok(vols[volumeName].fields)
      ensures volumeName !in vols ==> r == Raised(KeyError(VolumeNotFound(volumeName)))
    {
      var rec := AnnotateKeyError(Lookup(vols, volumeName), VolumeNotFound(volumeName));
      if rec.Raised? {
        return Raised(rec.exc);
      }
      return Ok(rec.value.fields);
    }

    /**
     * `restrict_volume`: drops the volume together with its lock, its
     * policies and its snapshots, so that it looks as if it never existed.
     */
    method RestrictVolume(volumeName: string) returns (r: Result<()>)
      requires Valid()
      modifies this
      ensures Valid()
      ensures volumeName !in old(vols) ==> r == Raised(KeyError(VolumeNotFound(volumeName)))
      ensures volumeName !in old(vols) ==>
                vols == old(vols) && locksStore == old(locksStore) &&
                rulesStore == old(rulesStore) && snapshotsStore == old(snapshotsStore)
      ensures volumeName in old(vols) ==> r == Ok(())
      ensures volumeName in old(vols) ==>
                && vols == old(vols) - {volumeName}
                && locksStore == old(locksStore) - {volumeName}
                && rulesStore == old(rulesStore) - {volumeName}
                && snapshotsStore == old(snapshotsStore) - {volumeName}
    {
      if volumeName !in vols {
        return Raised(KeyError(VolumeNotFound(volumeName)));
      }
      vols := vols - {volumeName};
      locksStore := locksStore - {volumeName};
      rulesStore := rulesStore - {volumeName};
      snapshotsStore := snapshotsStore - {volumeName};
      return Ok(());
    }

    /**
     * `patch_volume`: writes each supplied field into the volume's record.
     * The lookup happens inside the loop over the fields, so an absent volume
     * raises only when `data` is not empty. The record is written in place:
     * every volume name sharing it (a clone and its source) sees the change,
     * and no other record changes.
     */
    method PatchVolume(volumeName: string, data: Record) returns (r: Result<()>)
      modifies vols.Values
      ensures volumeName !in vols && data != map[] ==> r == Raised(KeyError(VolumeNotFound(volumeName)))
      ensures volumeName in vols || data == map[] ==> r == Ok(())
      ensures volumeName in vols ==> vols[volumeName].fields == old(vols[volumeName].fields) + data
      ensures forall rec :: rec in vols.Values && (volumeName !in vols || rec != vols[volumeName])
                ==> rec.fields == old(rec.fields)
    {
      if data == map[] {
        return Ok(());
      }
      if volumeName !in vols {
        return Raised(KeyError(VolumeNotFound(volumeName)));
      }
      var rec := vols[volumeName];
      var todo := data.Keys;
      while todo != {}
        invariant todo <= data.Keys
        invariant rec.fields == old(rec.fields) + map k | k in data && k !in todo :: data[k]
        modifies rec
        decreases todo
      {
        var key :| key in todo;
        rec.fields := rec.fields[key := data[key]];
        todo := todo - {key};
      }
      return Ok(());
    }

    /**
     * `create_volume`: a name already in use raises `KeyError` and changes
     * nothing. Otherwise a new record with the default fields, overridden by
     * the caller's, is stored, the volume gets empty policy and snapshot
     * stores and holds no lock.
     */
    method CreateVolume(volumeName: string, fields: Record) returns (r: Result<()>)
      requires Valid()
      modifies this
      ensures Valid()
      ensures volumeName in old(vols) ==> r == Raised(KeyError("Volume " + volumeName + " already exists!"))
      ensures volumeName in old(vols) ==>
                vols == old(vols) && locksStore == old(locksStore) &&
                rulesStore == old(rulesStore) && snapshotsStore == old(snapshotsStore)
      ensures volumeName !in old(vols) ==> r == Ok(())
      ensures volumeName !in old(vols) ==>
                && vols.Keys == old(vols.Keys) + {volumeName}
                && (forall v :: v in old(vols) ==> vols[v] == old(vols[v]))
                && fresh(vols[volumeName])
                && vols[volumeName].fields == NewVolumeRecord(volumeName, fields)
                && locksStore == old(locksStore) - {volumeName}
                && rulesStore == old(rulesStore)[volumeName := map[]]
                && snapshotsStore == old(snapshotsStore)[volumeName := map[]]
    {
      if volumeName in vols {
        return Raised(KeyError("Volume " + volumeName + " already exists!"));
      }
      var rec := new VolumeRecord(NewVolumeRecord(volumeName, fields));
      vols := vols[volumeName := rec];
      locksStore := locksStore - {volumeName};
      rulesStore := rulesStore[volumeName := map[]];
      snapshotsStore := snapshotsStore[volumeName := map[]];
      return Ok(());
    }

    /** `locks`: the host holding the volume's lock, `None` when it is free. */
    method Locks(volumeName: string) returns (r: Result<Option<string>>)
      ensures volumeName !in vols ==> r == Raised(KeyError(VolumeNotFound(volumeName)))
      ensures volumeName in vols && volumeName in locksStore ==> r == Ok(Some(locksStore[volumeName]))
      ensures volumeName in vols && volumeName !in locksStore ==> r == Ok(None)
    {
      var check := CheckVolume(volumeName);
      if check.Raised? {
        return Raised(check.exc);
      }
      if volumeName !in locksStore {
        return Ok(None);
      }
      return Ok(Some(locksStore[volumeName]));
    }

    /**
     * `create_lock`: another holder makes it raise `ValueError` and keeps
     * that holder; the same holder makes it a no-op; otherwise `host` now
     * holds the lock.
     */
    method CreateLock(volumeName: string, host: string) returns (r: Result<()>)
      requires Valid()
      modifies this`locksStore
      ensures Valid()
      ensures volumeName !in vols ==>
                r == Raised(KeyError(VolumeNotFound(volumeName))) && locksStore == old(locksStore)
      ensures volumeName in vols && volumeName in old(locksStore) && old(locksStore)[volumeName] != host
              ==> r == Raised(ValueError(volumeName + " is already locked by " + old(locksStore)[volumeName] + "!"))
                  && locksStore == old(locksStore)
      ensures volumeName in vols && (volumeName !in old(locksStore) || old(locksStore)[volumeName] == host)
              ==> r == Ok(()) && locksStore == old(locksStore)[volumeName := host]
    {
      var check := CheckVolume(volumeName);
      if check.Raised? {
        return Raised(check.exc);
      }
      if volumeName in locksStore && locksStore[volumeName] != host {
        return Raised(ValueError(volumeName + " is already locked by " + locksStore[volumeName] + "!"));
      }
      locksStore := locksStore[volumeName := host];
      return Ok(());
    }

    /**
     * `remove_lock`: releases the lock only when `host` holds it; another
     * holder keeps it. Departure from the documented contract (which says
     * that releasing a free volume does nothing): the bare lookup of the lock
     * raises "No such volume" when no lock is held.
     */
    method RemoveLock(volumeName: string, host: string) returns (r: Result<()>)
      modifies this`locksStore
      ensures volumeName !in vols ==> r == Raised(KeyError(VolumeNotFound(volumeName)))
      ensures volumeName in vols && volumeName !in old(locksStore)
              ==> r == Raised(KeyError(VolumeNotFound(volumeName)))
      ensures volumeName in vols && volumeName in old(locksStore) ==> r == Ok(())
      ensures volumeName in vols && volumeName in old(locksStore) && old(locksStore)[volumeName] == host
              ==> locksStore == old(locksStore) - {volumeName}
      ensures !(volumeName in vols && volumeName in old(locksStore) && old(locksStore)[volumeName] == host)
              ==> locksStore == old(locksStore)
    {
      var check := CheckVolume(volumeName);
      if check.Raised? {
        return Raised(check.exc);
      }
      var holder := AnnotateKeyError(Lookup(locksStore, volumeName), VolumeNotFound(volumeName));
      if holder.Raised? {
        return Raised(holder.exc);
      }
      if host == holder.value {
        locksStore := locksStore - {volumeName};
      }
      return Ok(());
    }

    /**
     * `policies`: the rule lists of the volume's policies. It looks up the
     * policy store, not the volume, to decide that the volume is missing.
     */
    method Policies(volumeName: string) returns (r: Result<seq<seq<string>>>, ghost names: seq<string>)
      ensures volumeName !in rulesStore ==> r == Raised(KeyError(VolumeNotFound(volumeName)))
      ensures volumeName in rulesStore ==> r.Ok? && |r.value| == |names| == |rulesStore[volumeName]|
      ensures volumeName in rulesStore ==> forall p :: p in names <==> p in rulesStore[volumeName]
      ensures volumeName in rulesStore ==>
                forall i :: 0 <= i < |names| ==> r.value[i] == rulesStore[volumeName][names[i]]
    {
      var store := AnnotateKeyError(Lookup(rulesStore, volumeName), VolumeNotFound(volumeName));
      if store.Raised? {
        return Raised(store.exc), [];
      }
      var lists;
      lists, names := ListValues(store.value);
      return Ok(lists), names;
    }

    /**
     * The rule list of one policy, for the operations that look it up after
     * checking the volume: a volume without a policy store (a clone) raises
     * `KeyError(volume_name)` and a missing policy `KeyError(policy_name)`.
     */
    function PolicyRules(volumeName: string, policyName: string): (r: Result<seq<string>>)
      reads this
      ensures volumeName !in vols ==> r == Raised(KeyError(VolumeNotFound(volumeName)))
      ensures volumeName in vols && volumeName !in rulesStore ==> r == Raised(KeyError(volumeName))
      ensures volumeName in vols && volumeName in rulesStore && policyName !in rulesStore[volumeName]
              ==> r == Raised(KeyError(policyName))
      ensures r.Ok? <==> volumeName in vols && volumeName in rulesStore && policyName in rulesStore[volumeName]
      ensures r.Ok? ==> r.value == rulesStore[volumeName][policyName]
    {
      if volumeName !in vols then Raised(KeyError(VolumeNotFound(volumeName)))
      else match Lookup(rulesStore, volumeName)
        case Raised(e) => Raised(e)
        case Ok(policies) => Lookup(policies, policyName)
    }

    /** `get_policy`: the rules of one policy of the volume. */
    method GetPolicy(volumeName: string, policyName: string) returns (r: Result<seq<string>>)
      requires Valid()
      ensures r == PolicyRules(volumeName, policyName)
      ensures r.Ok? ==> Distinct(r.value)
    {
      r := PolicyRules(volumeName, policyName);
    }

    /**
     * `create_policy`: stores the rules with repetitions removed. Departure
     * from the documented contract (a duplicate name should raise
     * `ValueError`): an existing policy of that name is overwritten.
     */
    method CreatePolicy(volumeName: string, policyName: string, rules: seq<string>) returns (r: Result<()>)
      requires Valid()
      modifies this`rulesStore
      ensures Valid()
      ensures volumeName !in vols ==> r == Raised(KeyError(VolumeNotFound(volumeName)))
      ensures volumeName in vols && volumeName !in old(rulesStore) ==> r == Raised(KeyError(volumeName))
      ensures r.Raised? ==> rulesStore == old(rulesStore)
      ensures volumeName in vols && volumeName in old(rulesStore) ==>
                r == Ok(()) &&
                rulesStore == old(rulesStore)[volumeName := old(rulesStore)[volumeName][policyName := Dedup(rules)]]
    {
      var check := CheckVolume(volumeName);
      if check.Raised? {
        return Raised(check.exc);
      }
      var policies := Lookup(rulesStore, volumeName);
      if policies.Raised? {
        return Raised(policies.exc);
      }
      rulesStore := rulesStore[volumeName := policies.value[policyName := Dedup(rules)]];
      return Ok(());
    }

    /** `remove_policy`: drops one policy of the volume. */
    method RemovePolicy(volumeName: string, policyName: string) returns (r: Result<()>)
      requires Valid()
      modifies this`rulesStore
      ensures Valid()
      ensures old(PolicyRules(volumeName, policyName)).Raised? ==>
                r == Raised(old(PolicyRules(volumeName, policyName)).exc)
      ensures r.Raised? ==> rulesStore == old(rulesStore)
      ensures old(PolicyRules(volumeName, policyName)).Ok? ==>
                r == Ok(()) && rulesStore == old(rulesStore)[volumeName := old(rulesStore)[volumeName] - {policyName}]
    {
      var found := PolicyRules(volumeName, policyName);
      if found.Raised? {
        return Raised(found.exc);
      }
      rulesStore := rulesStore[volumeName := rulesStore[volumeName] - {policyName}];
      return Ok(());
    }

    /**
     * `clone_volume`: the source volume and snapshot are checked before the
     * clone name. The clone is the source's record under a second name (the
     * same dictionary, not a copy), and it gets no policy or snapshot store.
     */
    method CloneVolume(cloneName: string, fromVolume: string, fromSnapshot: string) returns (r: Result<()>)
      requires Valid()
      modifies this`vols
      ensures Valid()
      ensures CheckSnapshot(fromVolume, fromSnapshot).Raised? ==>
                r == CheckSnapshot(fromVolume, fromSnapshot) && vols == old(vols)
      ensures CheckSnapshot(fromVolume, fromSnapshot).Ok? && cloneName in old(vols) ==>
                r == Raised(ValueError("Name already in use!")) && vols == old(vols)
      ensures CheckSnapshot(fromVolume, fromSnapshot).Ok? && cloneName !in old(vols) ==>
                r == Ok(()) && vols == old(vols)[cloneName := old(vols)[fromVolume]]
    {
      var check := CheckSnapshot(fromVolume, fromSnapshot);
      if check.Raised? {
        return check;
      }
      if cloneName in vols {
        return Raised(ValueError("Name already in use!"));
      }
      vols := vols[cloneName := vols[fromVolume]];
      return Ok(());
    }

    /**
     * `create_snapshot`: records `{'name': snapshot_name}` under the volume.
     * Departure from the documented contract (a duplicate name should raise
     * `ValueError`): an existing snapshot of that name is overwritten.
     */
    method CreateSnapshot(volumeName: string, snapshotName: string) returns (r: Result<()>)
      requires Valid()
      modifies this`snapshotsStore
      ensures Valid()
      ensures volumeName !in old(snapshotsStore) ==>
                r == Raised(KeyError(VolumeNotFound(volumeName))) && snapshotsStore == old(snapshotsStore)
      ensures volumeName in old(snapshotsStore) ==>
                r == Ok(()) &&
                snapshotsStore == old(snapshotsStore)[volumeName :=
                                    old(snapshotsStore)[volumeName][snapshotName := Snapshot(snapshotName)]]
    {
      var snaps := AnnotateKeyError(Lookup(snapshotsStore, volumeName), VolumeNotFound(volumeName));
      if snaps.Raised? {
        return Raised(snaps.exc);
      }
      snapshotsStore := snapshotsStore[volumeName := snaps.value[snapshotName := Snapshot(snapshotName)]];
      return Ok(());
    }

    /** `get_snapshot`: the snapshot's record. */
    method GetSnapshot(volumeName: string, snapshotName: string) returns (r: Result<Snapshot>)
      ensures CheckSnapshot(volumeName, snapshotName).Raised? ==>
                r == Raised(CheckSnapshot(volumeName, snapshotName).exc)
      ensures CheckSnapshot(volumeName, snapshotName).Ok? ==>
                r == Ok(snapshotsStore[volumeName][snapshotName])
    {
      var check := CheckSnapshot(volumeName, snapshotName);
      if check.Raised? {
        return Raised(check.exc);
      }
      return Ok(snapshotsStore[volumeName][snapshotName]);
    }

    /**
     * `delete_snapshot`. Departure from the documented contract: after the
     * checks it pops `snapshot_name` from the outer store, whose keys are
     * volume names. So the snapshot survives, and the call either raises
     * `KeyError(snapshot_name)` or drops the whole snapshot store of the
     * volume that happens to be named `snapshot_name`.
     */
    method DeleteSnapshot(volumeName: string, snapshotName: string) returns (r: Result<()>)
      requires Valid()
      modifies this`snapshotsStore
      ensures Valid()
      ensures old(CheckSnapshot(volumeName, snapshotName)).Raised? ==>
                r == old(CheckSnapshot(volumeName, snapshotName)) && snapshotsStore == old(snapshotsStore)
      ensures old(CheckSnapshot(volumeName, snapshotName)).Ok? && snapshotName !in old(snapshotsStore) ==>
                r == Raised(KeyError(snapshotName)) && snapshotsStore == old(snapshotsStore)
      ensures old(CheckSnapshot(volumeName, snapshotName)).Ok? && snapshotName in old(snapshotsStore) ==>
                r == Ok(()) && snapshotsStore == old(snapshotsStore) - {snapshotName}
    {
      var check := CheckSnapshot(volumeName, snapshotName);
      if check.Raised? {
        return check;
      }
      var popped := Lookup(snapshotsStore, snapshotName);
      if popped.Raised? {
        return Raised(popped.exc);
      }
      snapshotsStore := snapshotsStore - {snapshotName};
      return Ok(());
    }

    /**
     * `get_snapshots`. Departure from the documented contract: after checking
     * the volume it returns the snapshot stores of every volume, not only
     * those of `volume_name`.
     */
    method GetSnapshots(volumeName: string) returns (r: Result<seq<map<string, Snapshot>>>, ghost names: seq<string>)
      ensures volumeName !in vols ==> r == Raised(KeyError(VolumeNotFound(volumeName)))
      ensures volumeName in vols ==> r.Ok? && |r.value| == |names| == |snapshotsStore|
      ensures volumeName in vols ==> forall v :: v in names <==> v in snapshotsStore
      ensures volumeName in vols ==>
                forall i :: 0 <= i < |names| ==> r.value[i] == snapshotsStore[names[i]]
    {
      var check := CheckVolume(volumeName);
      if check.Raised? {
        return Raised(check.exc), [];
      }
      var stores;
      stores, names := ListValues(snapshotsStore);
      return Ok(stores), names;
    }

    /** `rollback_volume`: only checks that the volume and snapshot exist. */
    method RollbackVolume(volumeName: string, snapshotName: string) returns (r: Result<()>)
      ensures r.Ok? <==> volumeName in vols && volumeName in snapshotsStore
                          && snapshotName in snapshotsStore[volumeName]
      ensures r == CheckSnapshot(volumeName, snapshotName)
    {
      r := CheckSnapshot(volumeName, snapshotName);
    }

    /** `ensure_policy_rule_present`: appends `rule` unless the policy lists it. */
    method EnsurePolicyRulePresent(volumeName: string, policyName: string, rule: string) returns (r: Result<()>)
      requires Valid()
      modifies this`rulesStore
      ensures Valid()
      ensures old(PolicyRules(volumeName, policyName)).Raised? ==>
                r == Raised(old(PolicyRules(volumeName, policyName)).exc) && rulesStore == old(rulesStore)
      ensures old(PolicyRules(volumeName, policyName)).Ok? ==>
                r == Ok(()) &&
                rulesStore == old(rulesStore)[volumeName := old(rulesStore)[volumeName][policyName :=
                                WithRule(old(rulesStore)[volumeName][policyName], rule)]]
      ensures r.Ok? ==>
                rule in rulesStore[volumeName][policyName] &&
                multiset(rulesStore[volumeName][policyName])[rule] == 1
    {
      var found := PolicyRules(volumeName, policyName);
      if found.Raised? {
        return Raised(found.exc);
      }
      var updated := WithRule(found.value, rule);
      DistinctCountsOnce(updated, rule);
      rulesStore := rulesStore[volumeName := rulesStore[volumeName][policyName := updated]];
      return Ok(());
    }

    /** `ensure_policy_rule_absent`: removes every occurrence of `rule`. */
    method EnsurePolicyRuleAbsent(volumeName: string, policyName: string, rule: string) returns (r: Result<()>)
      requires Valid()
      modifies this`rulesStore
      ensures Valid()
      ensures old(PolicyRules(volumeName, policyName)).Raised? ==>
                r == Raised(old(PolicyRules(volumeName, policyName)).exc) && rulesStore == old(rulesStore)
      ensures old(PolicyRules(volumeName, policyName)).Ok? ==>
                r == Ok(()) &&
                rulesStore == old(rulesStore)[volumeName := old(rulesStore)[volumeName][policyName :=
                                WithoutRule(old(rulesStore)[volumeName][policyName], rule)]]
      ensures r.Ok? ==> rule !in rulesStore[volumeName][policyName]
    {
      var found := PolicyRules(volumeName, policyName);
      if found.Raised? {
        return Raised(found.exc);
      }
      var updated := WithoutRule(found.value, rule);
      WithoutRuleDistinct(found.value, rule);
      rulesStore := rulesStore[volumeName := rulesStore[volumeName][policyName := updated]];
      return Ok(());
    }
  }
  // -----------------------------------------------------------------------
  // Consequences of the code as written, on a small store

  /**
   * A clone shares its source's record: patching the clone also patches the
   * source volume.
   */
  method PatchingACloneChangesItsSource() returns (source: Result<Record>)
    ensures source.Ok? && "size_total" in source.value
    ensures source.value["size_total"] == IntV(100)
  {
    var s := CloneOfFreshVolume();
    var _ := s.PatchVolume("copy", map["size_total" := IntV(100)]);
    assert s.vols["vol"].fields["size_total"] == IntV(100);
    source := s.GetVolume("vol");
  }

  /** A new back-end holding "vol" and a clone "copy" of it, taken from its snapshot "snap". */
  method CloneOfFreshVolume() returns (s: DummyStorage)
    ensures fresh(s) && s.Valid()
    ensures "vol" in s.vols && "copy" in s.vols && s.vols["copy"] == s.vols["vol"]
    ensures forall rec :: rec in s.vols.Values ==> fresh(rec)
  {
    s := new DummyStorage();
    var _ := s.CreateVolume("vol", map[]);
    var _ := s.CreateSnapshot("vol", "snap");
    assert s.CheckSnapshot("vol", "snap").Ok?;
    var _ := s.CloneVolume("copy", "vol", "snap");
  }

  /**
   * A clone gets no snapshot or policy store of its own: snapshotting it
   * reports the clone as missing, and adding a policy to it raises a bare
   * `KeyError` naming it.
   */
  method CloneHasNoStores() returns (snapshot: Result<()>, policy: Result<()>)
    ensures snapshot == Raised(KeyError(VolumeNotFound("copy")))
    ensures policy == Raised(KeyError("copy"))
  {
    var s := new DummyStorage();
    var _ := s.CreateVolume("vol", map[]);
    var _ := s.CreateSnapshot("vol", "snap");
    var _ := s.CloneVolume("copy", "vol", "snap");
    snapshot := s.CreateSnapshot("copy", "snap2");
    policy := s.CreatePolicy("copy", "p", ["10.0.0.1"]);
  }

  /**
   * Deleting a snapshot leaves it in place: the pop looks the snapshot name
   * up among the volume names.
   */
  method DeletedSnapshotSurvives() returns (deleted: Result<()>, after: Result<Snapshot>)
    ensures deleted == Raised(KeyError("snap"))
    ensures after == Ok(Snapshot("snap"))
  {
    var s := new DummyStorage();
    var _ := s.CreateVolume("vol", map[]);
    var _ := s.CreateSnapshot("vol", "snap");
    deleted := s.DeleteSnapshot("vol", "snap");
    after := s.GetSnapshot("vol", "snap");
  }

  /** Releasing the lock of a volume nobody holds reports the volume as missing. */
  method ReleasingAFreeVolumeRaises() returns (r: Result<()>)
    ensures r == Raised(KeyError(VolumeNotFound("vol")))
  {
    var s := new DummyStorage();
    var _ := s.CreateVolume("vol", map[]);
    r := s.RemoveLock("vol", "host1");
  }

  /** Creating a policy under an existing name replaces its rules. */
  method PolicyRecreationOverwrites() returns (r: Result<seq<string>>)
    ensures r == Ok(["10.0.0.2"])
  {
    var s := new DummyStorage();
    var _ := s.CreateVolume("vol", map[]);
    var _ := s.CreatePolicy("vol", "p", ["10.0.0.1", "10.0.0.1"]);
    var _ := s.CreatePolicy("vol", "p", ["10.0.0.2"]);
    DedupOfDistinct(["10.0.0.2"]);
    r := s.GetPolicy("vol", "p");
  }
}
