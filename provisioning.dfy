/**
 * NetApp volume provisioning (`NetAppprov`): validating the arguments of a
 * new volume, choosing the aggregate with the most free space, creating the
 * volume with its export policy and options, and restricting or deleting
 * it.
 *
 * The controller is not part of the model: every answer it gives is a
 * parameter (an `Outcome`, an `AggrReply`, the pages of a rule listing) and
 * every changing request sent to it is appended to `issued`.
 */
module NetAppProvisioning {
  import opened Common
  import opened DictUtils
  import ServerPath
  import NetAppRules

  const VolumeNameMessage := "volume name contains strange characters"
  const QueryFailed := "query failed: reason %s error number: %s "
  const NoRecords := "query returned 0 records."
  const NoAggregate := "proper aggregate couldnt retrieved"
  const Unpack := "too many values to unpack (expected 2)"
  const PolicyError := "Error while creating policy"
  const VolumeError := "Error while creating volume: %s"
  const NotInitialised := "internal structure hasnt been initialized."
  const UnmountError := "Error while unmount volume: %s"
  const OfflineError := "Error while offline volume: %s"
  const DestroyError := "Error while destroy volume: %s"

  // -----------------------------------------------------------------------
  // Arguments of a new volume

  /** A character of the class `[\-_\w]`. */
  predicate VolumeChar(c: char)
  {
    c == '-' || IsWordChar(c)
  }

  /**
   * `re.search('^[\-_\w]+$', name)`: one or more characters of the class,
   * where `$` also accepts one final newline.
   */
  predicate VolumeNameMatches(name: string)
  {
    || (|name| >= 1 && forall i :: 0 <= i < |name| ==> VolumeChar(name[i]))
    || (|name| >= 2 && name[|name| - 1] == '\n' &&
        forall i :: 0 <= i < |name| - 1 ==> VolumeChar(name[i]))
  }

  /**
   * The name the constructor stores: the argument lower-cased, refused
   * with an `AssertionError` when it holds anything but letters, digits,
   * '-' and '_'.
   */
  function VolumeName(volname: string): (r: Result<string>)
    ensures r.Raised? ==> r == Raised(AssertionError(VolumeNameMessage))
    ensures r.Ok? ==> |r.value| == |volname| >= 1
    ensures r.Ok? ==> forall i :: 0 <= i < |volname| ==> r.value[i] == LowerChar(volname[i])
    ensures r.Ok? ==> forall i :: 0 <= i < |r.value| ==> !('A' <= r.value[i] <= 'Z')
    ensures r.Ok? ==> forall i :: 0 <= i < |r.value| ==>
                        VolumeChar(r.value[i]) || (i == |r.value| - 1 && r.value[i] == '\n')
    ensures r.Ok? <==> VolumeNameMatches(Lower(volname))
  {
    var name := Lower(volname);
    if VolumeNameMatches(name) then Ok(name) else Raised(AssertionError(VolumeNameMessage))
  }

  /** Lower-casing twice changes nothing more. */
  lemma {:induction false} LowerIdempotent(s: string)
    ensures Lower(Lower(s)) == Lower(s)
  {
    var once := Lower(s);
    assert forall i :: 0 <= i < |s| ==> LowerChar(LowerChar(s[i])) == LowerChar(s[i]);
    assert forall i :: 0 <= i < |s| ==> Lower(once)[i] == once[i];
  }

  /** A stored name passes the validation again, unchanged. */
  lemma StoredNameRevalidates(volname: string)
    requires VolumeName(volname).Ok?
    ensures VolumeName(VolumeName(volname).value) == VolumeName(volname)
  {
    LowerIdempotent(volname);
  }

  /** The server path the constructor builds: the cluster name, "222", ':' and the junction path. */
  function ProvisioningPath(clustername: string, junctionPath: string): (p: string)
    ensures ':' !in clustername && ':' !in junctionPath ==> Count(p, ':') == 1
  {
    CountAppend(clustername + "222" + ":", junctionPath);
    CountAppend(clustername + "222", ":");
    CountAppend(clustername, "222");
    assert Count(":", ':') == 1;
    clustername + "222" + ":" + junctionPath
  }

  lemma {:induction false} CountAppend(a: string, b: string)
    ensures Count(a + b, ':') == Count(a, ':') + Count(b, ':')
  {
    if a == [] {
      assert a + b == b;
    } else {
      assert (a + b)[1..] == a[1..] + b;
      CountAppend(a[1..], b);
    }
  }

  /**
   * A cluster name of six or more characters without digits is the cluster
   * the server path names: the "222" suffix supplies the digits the
   * controller pattern asks for.
   */
  lemma ProvisioningCluster(clustername: string)
    requires |clustername| >= 6
    requires forall i :: 0 <= i < |clustername| ==> !IsDigit(clustername[i])
    ensures ServerPath.ClusterOf(clustername + "222") == Some(clustername)
  {
    var controller := clustername + "222";
    assert controller[..|clustername|] == clustername;
    assert controller[|clustername|..] == "222";
    assert ServerPath.ControllerMatches(controller, clustername);
  }

  // -----------------------------------------------------------------------
  // Choosing an aggregate

  /**
   * `CONFIG[business][vserver]["nodes"]`: each node, in configuration
   * order, with the aggregate names configured for each aggregate type.
   */
  type NodeTable = seq<(string, map<string, seq<string>>)>

  /** The settings of a vserver; `nodes` is `None` when the key is missing. */
  datatype VserverConfig = VserverConfig(nodes: Option<NodeTable>)

  /** Business name to vserver name to settings. */
  type AggrConfig = map<string, map<string, VserverConfig>>

  /**
   * The controller's answer to the aggregate query for one node: an error,
   * or the record count and, per aggregate, its name and the free size when
   * the record carries space attributes.
   */
  datatype AggrReply =
    | AggrFailed(errno: int, reason: string)
    | AggrRecords(numRecords: int, records: seq<(string, Option<string>)>)

  /** `"node:aggregate"` to free size (a string, as the controller sends it), in insertion order. */
  type Sizes = NetAppRules.RuleListing

  /**
   * The size in effect at each record, keyed `"node:aggregate"`: the
   * record's own size, or else the size in effect at the record before it
   * (`prev` before the first). Defined only where no size is missing.
   */
  function Sized(node: string, records: seq<(string, Option<string>)>, prev: Option<string>)
    : (s: seq<(string, string)>)
    requires records == [] || records[0].1.Some? || prev.Some?
    ensures |s| == |records|
    ensures forall i :: 0 <= i < |records| ==> s[i].0 == node + ":" + records[i].0
    ensures forall i :: 0 <= i < |records| && records[i].1.Some? ==> s[i].1 == records[i].1.value
    ensures forall i :: 0 < i < |records| && records[i].1.None? ==> s[i].1 == s[i - 1].1
    ensures records != [] && records[0].1.None? ==> s[0].1 == prev.value
    decreases |records|
  {
    if records == [] then []
    else
      var size := if records[0].1.Some? then records[0].1.value else prev.value;
      [(node + ":" + records[0].0, size)] + Sized(node, records[1..], Some(size))
  }

  /**
   * The loop of `__AggregateFreeSize` over the records from the point where
   * `prev` is the last size read: a record without space attributes reuses
   * the size of the record before it, and the first record without them
   * reads an unbound local.
   */
  function NodeSizes(node: string, records: seq<(string, Option<string>)>, prev: Option<string>, acc: Sizes)
    : (r: Result<Sizes>)
    ensures r.Raised? <==> prev.None? && records != [] && records[0].1.None?
    ensures r.Raised? ==> r == Raised(UnboundLocalError)
    ensures r.Ok? ==> r.value == NetAppRules.PutAll(acc, Sized(node, records, prev))
    ensures r.Ok? ==> forall k :: k in NetAppRules.KeysOf(acc) ==> k in NetAppRules.KeysOf(r.value)
    decreases |records|
  {
    if records == [] then Ok(acc)
    else
      var size := if records[0].1.Some? then records[0].1 else prev;
      if size.None? then Raised(UnboundLocalError)
      else
        var acc' := NetAppRules.Put(acc, node + ":" + records[0].0, size.value);
        NetAppRules.PutEntries(acc, node + ":" + records[0].0, size.value);
        var sized := Sized(node, records, prev);
        assert sized[1..] == Sized(node, records[1..], size);
        NodeSizes(node, records[1..], size, acc')
  }

  /** `__AggregateFreeSize(node)`: the free size of each aggregate the node reports. */
  function FreeSizes(node: string, reply: AggrReply): (r: Result<Sizes>)
    ensures reply.AggrFailed? ==> r == Raised(StorageException(QueryFailed))
    ensures reply.AggrRecords? && reply.numRecords == 0 ==> r == Raised(StorageException(NoRecords))
    ensures reply.AggrRecords? && reply.numRecords != 0 ==>
              (r.Raised? <==> reply.records != [] && reply.records[0].1.None?)
    ensures r.Raised? && reply.AggrRecords? && reply.numRecords != 0 ==> r == Raised(UnboundLocalError)
    ensures r.Ok? ==> NetAppRules.ToMap(r.value) == DictOf(Sized(node, reply.records, None))
  {
    if reply.AggrFailed? then Raised(StorageException(QueryFailed))
    else if reply.numRecords == 0 then Raised(StorageException(NoRecords))
    else
      var r := NodeSizes(node, reply.records, None, []);
      if r.Ok? then
        NetAppRules.PutAllIsDictOf([], [], Sized(node, reply.records, None));
        assert [] + Sized(node, reply.records, None) == Sized(node, reply.records, None);
        r
      else r
  }

  /**
   * The inner loop of `__FindAggregate` for one node: each configured
   * aggregate the node reported becomes a candidate with its free size.
   */
  function AddCandidates(node: string, configured: seq<string>, sizes: Sizes, cand: Sizes): (r: Sizes)
    ensures |cand| <= |r| <= |cand| + |configured|
    decreases |configured|
  {
    if configured == [] then cand
    else
      var name := node + ":" + configured[0];
      var m := NetAppRules.ToMap(sizes);
      AddCandidates(node, configured[1..], sizes, if name in m then NetAppRules.Put(cand, name, m[name]) else cand)
  }

  /**
   * The outer loop of `__FindAggregate`: nodes without the aggregate type
   * raise `KeyError`, nodes with no aggregate of the type are not queried,
   * and a failed query raises.
   */
  function Candidates(nodes: NodeTable, aggrType: string, reply: string -> AggrReply, cand: Sizes)
    : (r: Result<Sizes>)
    // every node must list the aggregate type
    ensures r.Ok? ==> forall i :: 0 <= i < |nodes| ==> aggrType in nodes[i].1
    ensures r.Ok? ==> |cand| <= |r.value|
    decreases |nodes|
  {
    if nodes == [] then Ok(cand)
    else
      var node, types := nodes[0].0, nodes[0].1;
      if aggrType !in types then Raised(KeyError(aggrType))
      else if types[aggrType] == [] then Candidates(nodes[1..], aggrType, reply, cand)
      else match FreeSizes(node, reply(node))
        case Raised(e) => Raised(e)
        case Ok(sizes) => Candidates(nodes[1..], aggrType, reply, AddCandidates(node, types[aggrType], sizes, cand))
  }

  /**
   * The first element of `sorted(candidate, key=candidate.get, reverse=True)`:
   * the largest free size (compared as strings), and among equal sizes the
   * earliest candidate, since the sort is stable.
   */
  function BestIndex(cand: Sizes): (b: nat)
    requires cand != []
    ensures b < |cand|
    ensures forall k :: 0 <= k < |cand| ==> LexLessEq(cand[k].1, cand[b].1)
    ensures forall k :: 0 <= k < b ==> LexLess(cand[k].1, cand[b].1)
    decreases |cand|
  {
    if |cand| == 1 then 0
    else
      var j := 1 + BestIndex(cand[1..]);
      assert forall k :: 1 <= k < |cand| ==> cand[k] == cand[1..][k - 1];
      if LexLessEq(cand[j].1, cand[0].1) then
        assert forall k :: 0 <= k < |cand| ==> LexLessEq(cand[k].1, cand[0].1) by {
          forall k | 0 <= k < |cand| ensures LexLessEq(cand[k].1, cand[0].1) {
            if k > 0 {
              LexLessEqTransitive(cand[k].1, cand[j].1, cand[0].1);
            }
          }
        }
        0
      else
        LexLessTotal(cand[j].1, cand[0].1);
        j
  }

  /**
   * `__FindAggregate` as a value: the configuration lookups, `None` when
   * no node is configured, `IndexError` when no candidate is left, and
   * otherwise the best candidate.
   */
  function ChooseAggregate(config: AggrConfig, business: string, vserver: string, aggrType: string,
                           reply: string -> AggrReply): (r: Result<Option<string>>)
    ensures business !in config ==> r == Raised(KeyError(business))
    ensures r == Ok(None) <==>
              business in config && vserver in config[business] &&
              config[business][vserver].nodes == Some([])
    // a missing vserver or `nodes` entry is a KeyError
    ensures business in config && vserver !in config[business] ==> r == Raised(KeyError(vserver))
    ensures business in config && vserver in config[business] && config[business][vserver].nodes.None? ==>
              r == Raised(KeyError("nodes"))
    // a failed node query is passed on; no candidate is the IndexError of `sorted_candidate[0]`
    ensures business in config && vserver in config[business] && config[business][vserver].nodes.Some? &&
            config[business][vserver].nodes.value != [] ==>
              var cand := Candidates(config[business][vserver].nodes.value, aggrType, reply, []);
              && (cand.Raised? ==> r == Raised(cand.exc))
              && (cand == Ok([]) ==> r == Raised(IndexError))
  {
    if business !in config then Raised(KeyError(business))
    else if vserver !in config[business] then Raised(KeyError(vserver))
    else match config[business][vserver].nodes
      case None => Raised(KeyError("nodes"))
      case Some(nodes) =>
        if nodes == [] then Ok(None)
        else match Candidates(nodes, aggrType, reply, [])
          case Raised(e) => Raised(e)
          case Ok(cand) => if cand == [] then Raised(IndexError) else Ok(Some(cand[BestIndex(cand)].0))
  }

  /** The free size `node` reports for `name`, if its query succeeds. */
  ghost predicate Reported(node: string, reply: string -> AggrReply, name: string, size: string)
  {
    && FreeSizes(node, reply(node)).Ok?
    && name in NetAppRules.ToMap(FreeSizes(node, reply(node)).value)
    && NetAppRules.ToMap(FreeSizes(node, reply(node)).value)[name] == size
  }

  /** `entry` is `node:aggr` for an aggregate configured on that node for the type, with its reported size. */
  ghost predicate Offered(nodes: NodeTable, aggrType: string, reply: string -> AggrReply, entry: (string, string))
  {
    exists j, a :: 0 <= j < |nodes| && aggrType in nodes[j].1 && a in nodes[j].1[aggrType] &&
                   entry.0 == nodes[j].0 + ":" + a && Reported(nodes[j].0, reply, entry.0, entry.1)
  }

  lemma {:induction false} AddCandidatesSound(nodes: NodeTable, aggrType: string, reply: string -> AggrReply,
                                               j: nat, configured: seq<string>, sizes: Sizes, cand: Sizes)
    requires j < |nodes| && aggrType in nodes[j].1
    requires forall a :: a in configured ==> a in nodes[j].1[aggrType]
    requires FreeSizes(nodes[j].0, reply(nodes[j].0)) == Ok(sizes)
    requires forall e :: e in cand ==> Offered(nodes, aggrType, reply, e)
    ensures forall e :: e in AddCandidates(nodes[j].0, configured, sizes, cand) ==> Offered(nodes, aggrType, reply, e)
    decreases |configured|
  {
    if configured != [] {
      var name := nodes[j].0 + ":" + configured[0];
      var m := NetAppRules.ToMap(sizes);
      var next := if name in m then NetAppRules.Put(cand, name, m[name]) else cand;
      if name in m {
        NetAppRules.PutEntries(cand, name, m[name]);
        assert configured[0] in nodes[j].1[aggrType];
        assert Reported(nodes[j].0, reply, name, m[name]);
        assert Offered(nodes, aggrType, reply, (name, m[name]));
      }
      AddCandidatesSound(nodes, aggrType, reply, j, configured[1..], sizes, next);
    }
  }

  lemma {:induction false} CandidatesSound(nodes: NodeTable, i: nat, aggrType: string, reply: string -> AggrReply,
                                            cand: Sizes)
    requires i <= |nodes|
    requires forall e :: e in cand ==> Offered(nodes, aggrType, reply, e)
    ensures Candidates(nodes[i..], aggrType, reply, cand).Ok? ==>
              forall e :: e in Candidates(nodes[i..], aggrType, reply, cand).value ==>
                Offered(nodes, aggrType, reply, e)
    decreases |nodes| - i
  {
    if i < |nodes| {
      assert nodes[i..][0] == nodes[i];
      assert nodes[i..][1..] == nodes[i + 1..];
      var node, types := nodes[i].0, nodes[i].1;
      if aggrType in types {
        if types[aggrType] == [] {
          CandidatesSound(nodes, i + 1, aggrType, reply, cand);
        } else if FreeSizes(node, reply(node)).Ok? {
          var sizes := FreeSizes(node, reply(node)).value;
          AddCandidatesSound(nodes, aggrType, reply, i, types[aggrType], sizes, cand);
          CandidatesSound(nodes, i + 1, aggrType, reply, AddCandidates(node, types[aggrType], sizes, cand));
        }
      }
    }
  }

  /** Candidates are only ever added: a name once present stays, and each reported configured name is added. */
  lemma {:induction false} AddCandidatesKeys(node: string, configured: seq<string>, sizes: Sizes, cand: Sizes)
    ensures forall k :: k in NetAppRules.KeysOf(cand) ==>
              k in NetAppRules.KeysOf(AddCandidates(node, configured, sizes, cand))
    ensures forall a :: a in configured && node + ":" + a in NetAppRules.ToMap(sizes) ==>
              node + ":" + a in NetAppRules.KeysOf(AddCandidates(node, configured, sizes, cand))
    decreases |configured|
  {
    if configured != [] {
      var name := node + ":" + configured[0];
      var m := NetAppRules.ToMap(sizes);
      var next := if name in m then NetAppRules.Put(cand, name, m[name]) else cand;
      if name in m {
        NetAppRules.PutEntries(cand, name, m[name]);
      }
      AddCandidatesKeys(node, configured[1..], sizes, next);
    }
  }

  lemma {:induction false} CandidatesComplete(nodes: NodeTable, i: nat, aggrType: string, reply: string -> AggrReply,
                                               cand: Sizes)
    requires i <= |nodes|
    requires Candidates(nodes[i..], aggrType, reply, cand).Ok?
    ensures forall k :: k in NetAppRules.KeysOf(cand) ==>
              k in NetAppRules.KeysOf(Candidates(nodes[i..], aggrType, reply, cand).value)
    ensures forall j, a :: i <= j < |nodes| && aggrType in nodes[j].1 && a in nodes[j].1[aggrType] &&
                           FreeSizes(nodes[j].0, reply(nodes[j].0)).Ok? &&
                           nodes[j].0 + ":" + a in NetAppRules.ToMap(FreeSizes(nodes[j].0, reply(nodes[j].0)).value)
                       ==> nodes[j].0 + ":" + a in NetAppRules.KeysOf(Candidates(nodes[i..], aggrType, reply, cand).value)
    decreases |nodes| - i
  {
    if i < |nodes| {
      assert nodes[i..][0] == nodes[i];
      assert nodes[i..][1..] == nodes[i + 1..];
      var node, types := nodes[i].0, nodes[i].1;
      var next := if types[aggrType] == [] then cand
                  else AddCandidates(node, types[aggrType], FreeSizes(node, reply(node)).value, cand);
      assert Candidates(nodes[i..], aggrType, reply, cand) == Candidates(nodes[i + 1..], aggrType, reply, next);
      if types[aggrType] != [] {
        AddCandidatesKeys(node, types[aggrType], FreeSizes(node, reply(node)).value, cand);
      }
      CandidatesComplete(nodes, i + 1, aggrType, reply, next);
    }
  }

  /**
   * What `__FindAggregate` returns when it names an aggregate: a candidate
   * whose free size no other candidate exceeds, earlier candidates having
   * strictly smaller sizes; the candidates are exactly the `node:aggr` pairs
   * configured for the type and reported by their node, with the reported
   * size.
   */
  lemma AggregateSelection(config: AggrConfig, business: string, vserver: string, aggrType: string,
                           reply: string -> AggrReply)
    requires ChooseAggregate(config, business, vserver, aggrType, reply).Ok?
    requires ChooseAggregate(config, business, vserver, aggrType, reply).value.Some?
    ensures var nodes := config[business][vserver].nodes.value;
            var cand := Candidates(nodes, aggrType, reply, []).value;
            var chosen := ChooseAggregate(config, business, vserver, aggrType, reply).value.value;
            && (exists b :: 0 <= b < |cand| && cand[b].0 == chosen &&
                            (forall k :: 0 <= k < |cand| ==> LexLessEq(cand[k].1, cand[b].1)) &&
                            (forall k :: 0 <= k < b ==> LexLess(cand[k].1, cand[b].1)))
            && (forall e :: e in cand ==> Offered(nodes, aggrType, reply, e))
            && (forall j, a :: 0 <= j < |nodes| && aggrType in nodes[j].1 && a in nodes[j].1[aggrType] &&
                               FreeSizes(nodes[j].0, reply(nodes[j].0)).Ok? &&
                               nodes[j].0 + ":" + a in NetAppRules.ToMap(FreeSizes(nodes[j].0, reply(nodes[j].0)).value)
                           ==> nodes[j].0 + ":" + a in NetAppRules.KeysOf(cand))
  {
    var nodes := config[business][vserver].nodes.value;
    assert nodes[0..] == nodes;
    CandidatesSound(nodes, 0, aggrType, reply, []);
    CandidatesComplete(nodes, 0, aggrType, reply, []);
    var cand := Candidates(nodes, aggrType, reply, []).value;
    var b := BestIndex(cand);
    assert cand[b].0 == ChooseAggregate(config, business, vserver, aggrType, reply).value.value;
  }

  // -----------------------------------------------------------------------
  // Requests and the options they carry

  /** `str(n) + 'g'`: a size in gigabytes as the controller reads it. */
  function Gb(n: int): string
  {
    IntToString(n) + "g"
  }

  /** A size of zero or more is sent as its decimal digits and 'g', and reads back as itself. */
  lemma GbReadsBack(n: nat)
    ensures var s := Gb(n);
            && |s| >= 2 && s[|s| - 1] == 'g'
            && AllDigits(s[..|s| - 1]) && ParseNat(s[..|s| - 1]) == n
  {
    var s := Gb(n);
    assert s[..|s| - 1] == NatToString(n);
    ParseNatToString(n);
  }

  /** `percentage-snapshot-reserve`: a fifth of the volume when snapshots are wanted, nothing otherwise. */
  function SnapshotReserve(snaps: bool): (s: string)
    ensures s == "20" <==> snaps
    ensures s == "0" <==> !snaps
  {
    if snaps then "20" else "0"
  }

  /**
   * The arguments of `volume-autosize-set`, name and value alternating;
   * the increment is left out when it is 0.
   */
  function AutosizeArgs(volname: string, maxsize: int, increment: int): seq<string>
  {
    if increment == 0 then
      ["volume", volname, "maximum-size", Gb(maxsize), "is-enabled", "true"]
    else
      ["volume", volname, "increment-size", Gb(increment), "maximum-size", Gb(maxsize), "is-enabled", "true"]
  }

  /** Read two by two, the arguments are the option pairs, the increment only when it is not 0. */
  lemma AutosizePairs(volname: string, maxsize: int, increment: int)
    ensures Pairwise(AutosizeArgs(volname, maxsize, increment)) ==
              [("volume", volname)]
              + (if increment == 0 then [] else [("increment-size", Gb(increment))])
              + [("maximum-size", Gb(maxsize)), ("is-enabled", "true")]
  {
    OptionPairs(volname, Gb(maxsize), Gb(increment), increment != 0);
  }

  /** The argument list read two by two, whatever the sizes' text. */
  lemma OptionPairs(volname: string, size: string, step: string, stepped: bool)
    ensures Pairwise(if !stepped then ["volume", volname, "maximum-size", size, "is-enabled", "true"]
                     else ["volume", volname, "increment-size", step, "maximum-size", size, "is-enabled", "true"]) ==
              [("volume", volname)] + (if stepped then [("increment-size", step)] else [])
              + [("maximum-size", size), ("is-enabled", "true")]
  {
    if stepped {
      PairwiseOfEight("volume", volname, "increment-size", step, "maximum-size", size, "is-enabled", "true");
    } else {
      PairwiseOfSix("volume", volname, "maximum-size", size, "is-enabled", "true");
    }
  }

  /** Six arguments read two by two. */
  lemma PairwiseOfSix<T>(a: T, b: T, c: T, d: T, e: T, f: T)
    ensures Pairwise([a, b, c, d, e, f]) == [(a, b), (c, d), (e, f)]
  {
    var p := Pairwise([a, b, c, d, e, f]);
    assert p[0] == (a, b) && p[1] == (c, d) && p[2] == (e, f);
  }

  /** Eight arguments read two by two. */
  lemma PairwiseOfEight<T>(a: T, b: T, c: T, d: T, e: T, f: T, g: T, h: T)
    ensures Pairwise([a, b, c, d, e, f, g, h]) == [(a, b), (c, d), (e, f), (g, h)]
  {
    var p := Pairwise([a, b, c, d, e, f, g, h]);
    assert p[0] == (a, b) && p[1] == (c, d) && p[2] == (e, f) && p[3] == (g, h);
  }

  /** The options `volume-autosize-set` receives, as one dictionary. */
  lemma AutosizeDict(volname: string, maxsize: int, increment: int)
    ensures DictOf(Pairwise(AutosizeArgs(volname, maxsize, increment))) ==
              (if increment == 0 then map["volume" := volname]
               else map["volume" := volname, "increment-size" := Gb(increment)])
              ["maximum-size" := Gb(maxsize)]["is-enabled" := "true"]
  {
    AutosizePairs(volname, maxsize, increment);
    OptionDict(volname, Gb(maxsize), Gb(increment), increment != 0);
  }

  /** `dict` of the option pairs, whatever the sizes' text. */
  lemma OptionDict(volname: string, size: string, step: string, stepped: bool)
    ensures DictOf([("volume", volname)] + (if stepped then [("increment-size", step)] else [])
                   + [("maximum-size", size), ("is-enabled", "true")]) ==
              (if !stepped then map["volume" := volname] else map["volume" := volname, "increment-size" := step])
              ["maximum-size" := size]["is-enabled" := "true"]
  {
    var p0, p2, p3 := ("volume", volname), ("maximum-size", size), ("is-enabled", "true");
    DictOfSnoc([], p0);
    assert [] + [p0] == [p0];
    var front: seq<(string, string)> := [p0];
    if stepped {
      var p1 := ("increment-size", step);
      DictOfSnoc([p0], p1);
      front := [p0] + [p1];
    }
    DictOfSnoc(front, p2);
    DictOfSnoc(front + [p2], p3);
    assert [("volume", volname)] + (if stepped then [("increment-size", step)] else [])
           + [("maximum-size", size), ("is-enabled", "true")] == front + [p2] + [p3];
  }

  /** The options `volume-autosize-set` receives, read as a dictionary. */
  lemma AutosizeOptions(volname: string, maxsize: int, increment: int)
    ensures var options := DictOf(Pairwise(AutosizeArgs(volname, maxsize, increment)));
            && options.Keys == {"volume", "maximum-size", "is-enabled"} + (if increment == 0 then {} else {"increment-size"})
            && options["volume"] == volname
            && options["maximum-size"] == Gb(maxsize)
            && options["is-enabled"] == "true"
            && (increment != 0 ==> options["increment-size"] == Gb(increment))
  {
    AutosizeDict(volname, maxsize, increment);
    OptionEntries(volname, Gb(maxsize), Gb(increment), increment != 0);
  }

  /** The entries of the option dictionary, whatever the sizes' text. */
  lemma OptionEntries(volname: string, size: string, step: string, stepped: bool)
    ensures var options := (if !stepped then map["volume" := volname]
                            else map["volume" := volname, "increment-size" := step])
                           ["maximum-size" := size]["is-enabled" := "true"];
            && options.Keys == {"volume", "maximum-size", "is-enabled"} + (if stepped then {"increment-size"} else {})
            && options["volume"] == volname
            && options["maximum-size"] == size
            && options["is-enabled"] == "true"
            && (stepped ==> options["increment-size"] == step)
  {
  }

  /** A changing request sent to the controller. */
  datatype Request =
    | VolumeCreateRequest(volume: string, aggregate: string, size: string, junctionPath: string,
                          snapshotPolicy: string, snapshotReserve: string, exportPolicy: Option<string>)
    | AutosizeRequest(args: seq<string>)
    | SnapAutodeleteRequest(volume: string, vserver: string, trigger: string, space: int,
                            order: string, deferDelete: string)
    | UnmountRequest(volume: string)
    | OfflineRequest(volume: string)
    | DestroyRequest(volume: string)
    | RestrictRequest(volume: string)
    /** A request sent through the export-policy handle. */
    | RulesRequest(rules: NetAppRules.Request)

  function Wrap(rs: seq<NetAppRules.Request>): (r: seq<Request>)
    ensures |r| == |rs| && forall i :: 0 <= i < |rs| ==> r[i] == RulesRequest(rs[i])
  {
    seq(|rs|, i requires 0 <= i < |rs| => RulesRequest(rs[i]))
  }

  /**
   * The controller's answers during `CreateVolume`: whether `GetInfoPath`
   * found a volume at the junction path, the aggregate queries, the
   * export-policy lookup and creation, the rule listing and creation, the
   * volume creation and the two option settings.
   */
  datatype CreateReplies = CreateReplies(
    existing: bool,
    aggregates: string -> AggrReply,
    policyGet: NetAppRules.Outcome,
    policyCreate: NetAppRules.Outcome,
    rulePages: seq<NetAppRules.PageReply>,
    ruleCreate: NetAppRules.Outcome,
    volumeCreate: NetAppRules.Outcome,
    snapAutodelete: NetAppRules.Outcome,
    autosize: NetAppRules.Outcome)

  /** The outcome of `CreateVolume`: the result, the requests sent, and whether the vserver was contacted. */
  datatype CreationOutcome = CreationOutcome(result: Result<int>, requests: seq<Request>, contacted: bool)

  // -----------------------------------------------------------------------
  // The provisioning object

  class NetAppprov {
    const clustername: string
    /** The validated, lower-cased volume name. */
    const volname: string
    const initialSize: int
    const finalSize: int
    const increment: int
    const vserver: string
    /** The export policy; "" for none. */
    const firewallName: string
    /** The client the export policy admits; `None` (the default 0) or "" for none. */
    const firewallIp: Option<string>
    const junctionPath: string
    /** The aggregate type: hybrid-aggr, hdd-aggr or ssd-aggr. */
    const aggrType: string
    const snaps: bool
    /** The configuration entry holding the nodes; the cluster name by default. */
    const business: string
    /** `clustertoconnect[0]`, from the server path. */
    const cluster: string
    /** Whether `admin_vserver` has been set up. */
    var adminConnected: bool
    /** The changing requests sent to the controller, oldest first. */
    var issued: seq<Request>

    constructor (clustername: string, volname: string, initialSize: int, finalSize: int, increment: int,
                 vserver: string, firewallName: string, junctionPath: string, aggrType: string,
                 firewallIp: Option<string>, snaps: bool, business: string, cluster: string)
      ensures this.clustername == clustername && this.volname == volname
      ensures this.initialSize == initialSize && this.finalSize == finalSize && this.increment == increment
      ensures this.vserver == vserver && this.firewallName == firewallName && this.junctionPath == junctionPath
      ensures this.aggrType == aggrType && this.firewallIp == firewallIp && this.snaps == snaps
      ensures this.business == business && this.cluster == cluster
      ensures !adminConnected && issued == []
    {
      this.clustername := clustername;
      this.volname := volname;
      this.initialSize := initialSize;
      this.finalSize := finalSize;
      this.increment := increment;
      this.vserver := vserver;
      this.firewallName := firewallName;
      this.junctionPath := junctionPath;
      this.aggrType := aggrType;
      this.firewallIp := firewallIp;
      this.snaps := snaps;
      this.business := business;
      this.cluster := cluster;
      adminConnected := false;
      issued := [];
    }

    /**
     * `NetAppprov(...)`: the server path is parsed first, then the volume
     * name is validated; `business` left at its default (`None` here, 0 in
     * the source) becomes the cluster name.
     */
    static method New(clustername: string, volname: string, initialSize: int, finalSize: int, increment: int,
                      vserver: string, firewallName: string, junctionPath: string, aggrType: string,
                      firewallIp: Option<string>, snaps: bool, business: Option<string>,
                      config: ServerPath.Config) returns (r: Result<NetAppprov>)
      ensures var parsed := ServerPath.Parse(ProvisioningPath(clustername, junctionPath), config);
              && (parsed.Raised? ==> r == Raised(parsed.exc))
              && (parsed.Ok? && VolumeName(volname).Raised? ==> r == Raised(AssertionError(VolumeNameMessage)))
              && (parsed.Ok? && VolumeName(volname).Ok? ==>
                    && r.Ok? && fresh(r.value)
                    && r.value.volname == VolumeName(volname).value
                    && r.value.business == (if business.None? then clustername else business.value)
                    && r.value.cluster == parsed.value.cluster
                    && r.value.clustername == clustername && r.value.junctionPath == junctionPath
                    && r.value.vserver == vserver && r.value.aggrType == aggrType
                    && r.value.initialSize == initialSize && r.value.finalSize == finalSize
                    && r.value.increment == increment && r.value.snaps == snaps
                    && r.value.firewallName == firewallName && r.value.firewallIp == firewallIp
                    && !r.value.adminConnected && r.value.issued == [])
    {
      var parsed := ServerPath.Parse(ProvisioningPath(clustername, junctionPath), config);
      if parsed.Raised? {
        return Raised(parsed.exc);
      }
      var name := VolumeName(volname);
      if name.Raised? {
        return Raised(name.exc);
      }
      var owner := if business.None? then clustername else business.value;
      var p := new NetAppprov(clustername, name.value, initialSize, finalSize, increment, vserver, firewallName,
                              junctionPath, aggrType, firewallIp, snaps, owner, parsed.value.cluster);
      return Ok(p);
    }

    /**
     * `__AggregateFreeSize(node)`: reads each record in turn into a
     * dictionary keyed `node:aggregate`.
     */
    method AggregateFreeSize(node: string, reply: AggrReply) returns (r: Result<Sizes>)
      ensures r == FreeSizes(node, reply)
    {
      if reply.AggrFailed? {
        return Raised(StorageException(QueryFailed));
      }
      if reply.numRecords == 0 {
        return Raised(StorageException(NoRecords));
      }
      var records := reply.records;
      var result: Sizes := [];
      var size: Option<string> := None;
      for k := 0 to |records|
        invariant FreeSizes(node, reply) == NodeSizes(node, records[k..], size, result)
      {
        assert records[k..][1..] == records[k + 1..];
        if records[k].1.Some? {
          size := records[k].1;
        }
        if size.None? {
          return Raised(UnboundLocalError);
        }
        result := NetAppRules.Put(result, node + ":" + records[k].0, size.value);
      }
      return Ok(result);
    }

    /**
     * `__FindAggregate`: gathers the candidates node by node, then takes
     * the best one.
     */
    method FindAggregate(nodesConfig: AggrConfig, reply: string -> AggrReply) returns (r: Result<Option<string>>)
      ensures r == ChooseAggregate(nodesConfig, business, vserver, aggrType, reply)
    {
      if business !in nodesConfig {
        return Raised(KeyError(business));
      }
      if vserver !in nodesConfig[business] {
        return Raised(KeyError(vserver));
      }
      if nodesConfig[business][vserver].nodes.None? {
        return Raised(KeyError("nodes"));
      }
      var nodes := nodesConfig[business][vserver].nodes.value;
      if nodes == [] {
        return Ok(None);
      }
      var gathered := GatherCandidates(nodes, reply);
      if gathered.Raised? {
        return Raised(gathered.exc);
      }
      var candidate := gathered.value;
      if candidate == [] {
        return Raised(IndexError);
      }
      return Ok(Some(candidate[BestIndex(candidate)].0));
    }

    /** The loop over the configured nodes, filling `candidate`. */
    method GatherCandidates(nodes: NodeTable, reply: string -> AggrReply) returns (r: Result<Sizes>)
      ensures r == Candidates(nodes, aggrType, reply, [])
    {
      var candidate: Sizes := [];
      var i := 0;
      while i < |nodes|
        invariant 0 <= i <= |nodes|
        invariant Candidates(nodes, aggrType, reply, []) == Candidates(nodes[i..], aggrType, reply, candidate)
      {
        assert nodes[i..][1..] == nodes[i + 1..];
        var node, types := nodes[i].0, nodes[i].1;
        if aggrType !in types {
          return Raised(KeyError(aggrType));
        }
        if types[aggrType] != [] {
          var sizes := AggregateFreeSize(node, reply(node));
          if sizes.Raised? {
            return Raised(sizes.exc);
          }
          candidate := AddConfigured(node, types[aggrType], sizes.value, candidate);
        }
        i := i + 1;
      }
      return Ok(candidate);
    }

    /** The loop over the configured aggregates of one node. */
    static method AddConfigured(node: string, configured: seq<string>, sizes: Sizes, cand: Sizes)
      returns (r: Sizes)
      ensures r == AddCandidates(node, configured, sizes, cand)
    {
      var m := NetAppRules.ToMap(sizes);
      r := cand;
      for j := 0 to |configured|
        invariant AddCandidates(node, configured, sizes, cand) == AddCandidates(node, configured[j..], sizes, r)
      {
        assert configured[j..][1..] == configured[j + 1..];
        var name := node + ":" + configured[j];
        if name in m {
          r := NetAppRules.Put(r, name, m[name]);
        }
      }
    }

    /**
     * The export-policy part of `CreateVolume`: when a policy is named, it
     * is created if the lookup fails (a failed creation raises), and a rule
     * for the client is added unless the listing shows one.
     */
    function PolicySteps(rp: CreateReplies): (out: (Option<Exception>, seq<Request>))
      requires NetAppRules.Ends(rp.rulePages)
      ensures firewallName == "" ==> out == (None, [])
      ensures out.0.Some? ==> out.0 == Some(StorageException(PolicyError)) &&
                              rp.policyGet.Failed? && rp.policyCreate.Failed?
      ensures firewallName != "" && rp.policyGet.Failed? && rp.policyCreate.Failed? ==>
                out.0 == Some(StorageException(PolicyError))
      // the client rule is requested at index "1" exactly when the policy is
      // there, an address is given and no listed rule holds it yet
      ensures (firewallIp.Some? &&
               RulesRequest(NetAppRules.CreateRuleRequest(firewallName, firewallIp.value, "1")) in out.1) <==>
                firewallName != "" && !(rp.policyGet.Failed? && rp.policyCreate.Failed?) && Truthy(firewallIp) &&
                NetAppRules.RuleIndex(NetAppRules.Listing(rp.rulePages, []), firewallIp.value).None?
      ensures RulesRequest(NetAppRules.CreatePolicyRequest(firewallName)) in out.1 <==>
                firewallName != "" && rp.policyGet.Failed?
      ensures forall q :: q in out.1 ==> q.RulesRequest?
    {
      if firewallName == "" then (None, [])
      else
        var created := if rp.policyGet.Failed? then [RulesRequest(NetAppRules.CreatePolicyRequest(firewallName))]
                       else [];
        if rp.policyGet.Failed? && rp.policyCreate.Failed? then (Some(StorageException(PolicyError)), created)
        else
          var rule :=
            if Truthy(firewallIp) &&
               NetAppRules.RuleIndex(NetAppRules.Listing(rp.rulePages, []), firewallIp.value).None?
            then [RulesRequest(NetAppRules.CreateRuleRequest(firewallName, firewallIp.value, "1"))]
            else [];
          (None, created + rule)
    }

    /** The settings made once the volume exists. */
    function FollowUps(): (reqs: seq<Request>)
      ensures forall q :: q in reqs ==> q.SnapAutodeleteRequest? || q.AutosizeRequest?
      ensures AutosizeRequest(AutosizeArgs(volname, finalSize, increment)) in reqs <==> finalSize > 0 && increment > 0
      ensures forall q :: q in reqs && q.AutosizeRequest? ==> q.args == AutosizeArgs(volname, finalSize, increment)
      ensures SnapAutodeleteRequest(volname, vserver, "snap_reserve", 10, "oldest_first", "scheduled") in reqs <==> snaps
    {
      (if snaps then [SnapAutodeleteRequest(volname, vserver, "snap_reserve", 10, "oldest_first", "scheduled")]
       else [])
      + (if finalSize > 0 && increment > 0 then [AutosizeRequest(AutosizeArgs(volname, finalSize, increment))]
         else [])
    }

    /** The `volume-create` request for an aggregate. */
    function CreateRequest(aggregate: string): (q: Request)
      ensures q.VolumeCreateRequest? && q.volume == volname && q.aggregate == aggregate
      ensures q.size == Gb(initialSize) && q.junctionPath == junctionPath && q.snapshotPolicy == "none"
      ensures q.snapshotReserve == "20" <==> snaps
      ensures q.snapshotReserve == "0" <==> !snaps
      ensures q.exportPolicy == (if firewallName != "" then Some(firewallName) else None)
    {
      VolumeCreateRequest(volname, aggregate, Gb(initialSize), junctionPath, "none", SnapshotReserve(snaps),
                          if firewallName != "" then Some(firewallName) else None)
    }

    /**
     * `CreateVolume` once the aggregate is known: the export policy, the
     * volume itself, then the snapshot and autosize options. The volume is
     * requested at most once, and autosize is configured exactly when the
     * creation succeeded and both the final size and the increment are
     * positive.
     */
    function CreateIn(aggregate: string, rp: CreateReplies): (out: CreationOutcome)
      requires NetAppRules.Ends(rp.rulePages)
      ensures out.contacted
      ensures out.result.Ok? <==> PolicySteps(rp).0.None? && rp.volumeCreate.Succeeded?
      ensures out.result.Ok? ==> out.result == Ok(0)
      ensures PolicySteps(rp).0.Some? ==> out.result == Raised(StorageException(PolicyError))
      ensures PolicySteps(rp).0.None? && rp.volumeCreate.Failed? ==>
                out.result == Raised(StorageException(VolumeError))
      // the policy requests always come first
      ensures |PolicySteps(rp).1| <= |out.requests| && out.requests[..|PolicySteps(rp).1|] == PolicySteps(rp).1
    {
      var policy := PolicySteps(rp);
      if policy.0.Some? then CreationOutcome(Raised(policy.0.value), policy.1, true)
      else if rp.volumeCreate.Failed? then
        CreationOutcome(Raised(StorageException(VolumeError)), policy.1 + VolumeRequests(aggregate, rp), true)
      else CreationOutcome(Ok(0), policy.1 + VolumeRequests(aggregate, rp), true)
    }

    /** The `volume-create` request, followed by the option settings when the controller accepts it. */
    function VolumeRequests(aggregate: string, rp: CreateReplies): seq<Request>
    {
      [CreateRequest(aggregate)] + (if rp.volumeCreate.Succeeded? then FollowUps() else [])
    }

    /**
     * Once the aggregate is known the vserver is contacted; the volume is
     * requested at most once, and always when the creation succeeds; and
     * autosize is configured exactly when the creation succeeded and both
     * the final size and the increment are positive.
     */
    lemma CreateInRequests(aggregate: string, rp: CreateReplies)
      requires NetAppRules.Ends(rp.rulePages)
      ensures var out := CreateIn(aggregate, rp);
              && out.contacted
              && (forall q :: q in out.requests && q.VolumeCreateRequest? ==> q == CreateRequest(aggregate))
              && (out.result.Ok? ==> out.result == Ok(0) && CreateRequest(aggregate) in out.requests)
              && (PolicySteps(rp).0.None? <==> CreateRequest(aggregate) in out.requests)
              && (AutosizeRequest(AutosizeArgs(volname, finalSize, increment)) in out.requests <==>
                    out.result.Ok? && finalSize > 0 && increment > 0)
              && (forall q :: q in out.requests && q.AutosizeRequest? ==>
                    q.args == AutosizeArgs(volname, finalSize, increment))
    {
      var policy := PolicySteps(rp);
      var out := CreateIn(aggregate, rp);
      assert forall q :: q in policy.1 ==> q.RulesRequest?;
      if policy.0.Some? {
        assert out.requests == policy.1;
      } else {
        var volume := VolumeRequests(aggregate, rp);
        assert out.requests == policy.1 + volume;
        assert out.requests[|policy.1|] == CreateRequest(aggregate);
        assert forall q :: q in FollowUps() ==> !q.VolumeCreateRequest?;
        assert forall q :: q in volume && q.VolumeCreateRequest? ==> q == CreateRequest(aggregate);
      }
    }

    /**
     * `CreateVolume` as a value: create-if-absent. Nothing is sent when a
     * volume exists at the junction path or when no aggregate with exactly
     * one ':' in its `node:aggr` name is chosen.
     */
    function Creation(nodesConfig: AggrConfig, rp: CreateReplies): (out: CreationOutcome)
      requires NetAppRules.Ends(rp.rulePages)
      ensures rp.existing ==> out == CreationOutcome(Ok(0), [], false)
      ensures !rp.existing &&
              ChooseAggregate(nodesConfig, business, vserver, aggrType, rp.aggregates) == Ok(None) ==>
                out == CreationOutcome(Raised(StorageException(NoAggregate)), [], false)
      ensures out.contacted ==>
                var chosen := ChooseAggregate(nodesConfig, business, vserver, aggrType, rp.aggregates);
                && !rp.existing && chosen.Ok? && chosen.value.Some? && Count(chosen.value.value, ':') == 1
                && |Split(chosen.value.value, ':')| == 2
                && out == CreateIn(Split(chosen.value.value, ':')[1], rp)
      ensures !out.contacted ==> out.requests == []
      // without an existing volume: the aggregate search decides, and a usable name creates the volume
      ensures !rp.existing ==>
                var chosen := ChooseAggregate(nodesConfig, business, vserver, aggrType, rp.aggregates);
                && (chosen.Raised? ==> out == CreationOutcome(Raised(chosen.exc), [], false))
                && (chosen.Ok? && (chosen.value.None? || ':' !in chosen.value.value) ==>
                      out == CreationOutcome(Raised(StorageException(NoAggregate)), [], false))
                && (chosen.Ok? && chosen.value.Some? && Count(chosen.value.value, ':') >= 2 ==>
                      out == CreationOutcome(Raised(ValueError(Unpack)), [], false))
                && (chosen.Ok? && chosen.value.Some? && Count(chosen.value.value, ':') == 1 ==>
                      |Split(chosen.value.value, ':')| == 2 &&
                      out == CreateIn(Split(chosen.value.value, ':')[1], rp))
    {
      if rp.existing then CreationOutcome(Ok(0), [], false)
      else
        var chosen := ChooseAggregate(nodesConfig, business, vserver, aggrType, rp.aggregates);
        if chosen.Raised? then CreationOutcome(Raised(chosen.exc), [], false)
        else if chosen.value.None? || ':' !in chosen.value.value then
          CreationOutcome(Raised(StorageException(NoAggregate)), [], false)
        else if Count(chosen.value.value, ':') != 1 then CreationOutcome(Raised(ValueError(Unpack)), [], false)
        else
          SplitCount(chosen.value.value, ':');
          CreateIn(Split(chosen.value.value, ':')[1], rp)
    }

    /** `SetSnapAutoDeletion`: `None` when the controller refuses, 0 otherwise. */
    method SetSnapAutoDeletion(trigger: string, space: int, order: string, delpolicy: string,
                               reply: NetAppRules.Outcome) returns (r: Option<int>)
      modifies this`adminConnected, this`issued
      ensures adminConnected
      ensures issued == old(issued) + [SnapAutodeleteRequest(volname, vserver, trigger, space, order, delpolicy)]
      ensures r == (if reply.Failed? then None else Some(0))
    {
      if !adminConnected {
        adminConnected := true;
      }
      issued := issued + [SnapAutodeleteRequest(volname, vserver, trigger, space, order, delpolicy)];
      if reply.Failed? {
        return None;
      }
      return Some(0);
    }

    /** `SetAutoSize`: the sizes are gigabytes; `None` when the controller refuses, 0 otherwise. */
    method SetAutoSize(maxsize: int, increment: int, reply: NetAppRules.Outcome) returns (r: Option<int>)
      modifies this`adminConnected, this`issued
      ensures adminConnected
      ensures issued == old(issued) + [AutosizeRequest(AutosizeArgs(volname, maxsize, increment))]
      ensures r == (if reply.Failed? then None else Some(0))
    {
      if !adminConnected {
        adminConnected := true;
      }
      issued := issued + [AutosizeRequest(AutosizeArgs(volname, maxsize, increment))];
      if reply.Failed? {
        return None;
      }
      return Some(0);
    }

    /**
     * The export-policy steps of `CreateVolume`, through a handle on the
     * same server path: `PolicyCreate` when the lookup fails, then
     * `CreateRule` for the client.
     */
    method SetUpExportPolicy(rp: CreateReplies) returns (failure: Option<Exception>)
      requires NetAppRules.Ends(rp.rulePages)
      modifies this`issued
      ensures failure == PolicySteps(rp).0
      ensures issued == old(issued) + PolicySteps(rp).1
    {
      if firewallName == "" {
        return None;
      }
      // `PolicyRulesNetApp.NewVolume` on the server path the constructor has
      // already parsed: a handle on this cluster knowing only the vserver.
      var policies := new NetAppRules.PolicyRulesNetApp(cluster, map["vserver" := vserver]);
      if rp.policyGet.Failed? {
        var created := policies.PolicyCreate(firewallName, rp.policyCreate);
        if created.Raised? {
          issued := issued + Wrap(policies.issued);
          return Some(StorageException(PolicyError));
        }
      }
      if Truthy(firewallIp) {
        var added := policies.CreateRule(firewallName, firewallIp.value, rp.rulePages, rp.ruleCreate);
      }
      issued := issued + Wrap(policies.issued);
      return None;
    }

    /** `CreateVolume` from the point where the aggregate is known. */
    method CreateInAggregate(aggregate: string, rp: CreateReplies) returns (r: Result<int>)
      requires NetAppRules.Ends(rp.rulePages)
      modifies this`adminConnected, this`issued
      ensures r == CreateIn(aggregate, rp).result
      ensures issued == old(issued) + CreateIn(aggregate, rp).requests
      ensures adminConnected
    {
      if !adminConnected {
        adminConnected := true;
      }
      ghost var before := issued;
      var failure := SetUpExportPolicy(rp);
      ghost var policy := PolicySteps(rp);
      if failure.Some? {
        assert CreateIn(aggregate, rp) == CreationOutcome(Raised(policy.0.value), policy.1, true);
        return Raised(failure.value);
      }
      assert issued == before + policy.1;
      r := CreateWithOptions(aggregate, rp);
      assert issued == before + (policy.1 + VolumeRequests(aggregate, rp));
      assert CreateIn(aggregate, rp).requests == policy.1 + VolumeRequests(aggregate, rp);
    }

    /** The `volume-create` request, then the snapshot and autosize options if it succeeds. */
    method CreateWithOptions(aggregate: string, rp: CreateReplies) returns (r: Result<int>)
      requires adminConnected
      modifies this`adminConnected, this`issued
      ensures adminConnected
      ensures r == (if rp.volumeCreate.Failed? then Raised(StorageException(VolumeError)) else Ok(0))
      ensures issued == old(issued) + VolumeRequests(aggregate, rp)
    {
      issued := issued + [CreateRequest(aggregate)];
      if rp.volumeCreate.Failed? {
        return Raised(StorageException(VolumeError));
      }
      ghost var created := issued;
      ghost var deletion: seq<Request> := [];
      ghost var sizing: seq<Request> := [];
      if snaps {
        var done := SetSnapAutoDeletion("snap_reserve", 10, "oldest_first", "scheduled", rp.snapAutodelete);
        deletion := [SnapAutodeleteRequest(volname, vserver, "snap_reserve", 10, "oldest_first", "scheduled")];
      }
      assert issued == created + deletion;
      if finalSize > 0 && increment > 0 {
        var done := SetAutoSize(finalSize, increment, rp.autosize);
        sizing := [AutosizeRequest(AutosizeArgs(volname, finalSize, increment))];
      }
      assert issued == created + deletion + sizing;
      assert FollowUps() == deletion + sizing;
      assert issued == old(issued) + VolumeRequests(aggregate, rp);
      return Ok(0);
    }

    /** `CreateVolume`, step by step. */
    method CreateVolume(nodesConfig: AggrConfig, rp: CreateReplies) returns (r: Result<int>)
      requires NetAppRules.Ends(rp.rulePages)
      modifies this`adminConnected, this`issued
      ensures r == Creation(nodesConfig, rp).result
      ensures issued == old(issued) + Creation(nodesConfig, rp).requests
      ensures adminConnected == (old(adminConnected) || Creation(nodesConfig, rp).contacted)
    {
      if rp.existing {
        return Ok(0);
      }
      var chosen := FindAggregate(nodesConfig, rp.aggregates);
      if chosen.Raised? {
        return Raised(chosen.exc);
      }
      if chosen.value.None? || ':' !in chosen.value.value {
        return Raised(StorageException(NoAggregate));
      }
      // `split(':', 2)` gives three pieces as soon as there are two colons.
      if Count(chosen.value.value, ':') != 1 {
        return Raised(ValueError(Unpack));
      }
      SplitCount(chosen.value.value, ':');
      r := CreateInAggregate(Split(chosen.value.value, ':')[1], rp);
    }

    /**
     * `DeleteVolume`: unmount, offline and destroy, in that order; the
     * first step the controller refuses raises and the later ones are not
     * sent. (A constructed object always has a name, so the first check
     * never raises.)
     */
    method DeleteVolume(unmount: NetAppRules.Outcome, offline: NetAppRules.Outcome, destroy: NetAppRules.Outcome)
      returns (r: Result<int>)
      modifies this`adminConnected, this`issued
      ensures volname == "" ==>
                r == Raised(StorageException(NotInitialised)) &&
                issued == old(issued) && adminConnected == old(adminConnected)
      ensures volname != "" ==> adminConnected
      ensures volname != "" && unmount.Failed? ==>
                r == Raised(StorageException(UnmountError)) &&
                issued == old(issued) + [UnmountRequest(volname)]
      ensures volname != "" && unmount.Succeeded? && offline.Failed? ==>
                r == Raised(StorageException(OfflineError)) &&
                issued == old(issued) + [UnmountRequest(volname), OfflineRequest(volname)]
      ensures volname != "" && unmount.Succeeded? && offline.Succeeded? && destroy.Failed? ==>
                r == Raised(StorageException(DestroyError)) &&
                issued == old(issued) + [UnmountRequest(volname), OfflineRequest(volname), DestroyRequest(volname)]
      ensures volname != "" && unmount.Succeeded? && offline.Succeeded? && destroy.Succeeded? ==>
                r == Ok(0) &&
                issued == old(issued) + [UnmountRequest(volname), OfflineRequest(volname), DestroyRequest(volname)]
    {
      if volname == "" {
        return Raised(StorageException(NotInitialised));
      }
      if !adminConnected {
        adminConnected := true;
      }
      issued := issued + [UnmountRequest(volname)];
      if unmount.Failed? {
        return Raised(StorageException(UnmountError));
      }
      issued := issued + [OfflineRequest(volname)];
      if offline.Failed? {
        return Raised(StorageException(OfflineError));
      }
      issued := issued + [DestroyRequest(volname)];
      if destroy.Failed? {
        return Raised(StorageException(DestroyError));
      }
      return Ok(0);
    }

    /**
     * `RestrictVolume`: unmount, then restrict. The answer to the restrict
     * is never looked at (the check after it tests the unmount answer
     * again, which has already succeeded), so a refused restrict still
     * gives 0.
     */
    method RestrictVolume(unmount: NetAppRules.Outcome, restrict: NetAppRules.Outcome) returns (r: Result<int>)
      modifies this`adminConnected, this`issued
      ensures volname == "" ==>
                r == Raised(StorageException(NotInitialised)) &&
                issued == old(issued) && adminConnected == old(adminConnected)
      ensures volname != "" ==> adminConnected
      ensures volname != "" && unmount.Failed? ==>
                r == Raised(StorageException(UnmountError)) && issued == old(issued) + [UnmountRequest(volname)]
      ensures volname != "" && unmount.Succeeded? ==>
                r == Ok(0) && issued == old(issued) + [UnmountRequest(volname), RestrictRequest(volname)]
    {
      if volname == "" {
        return Raised(StorageException(NotInitialised));
      }
      if !adminConnected {
        adminConnected := true;
      }
      issued := issued + [UnmountRequest(volname)];
      if unmount.Failed? {
        return Raised(StorageException(UnmountError));
      }
      issued := issued + [RestrictRequest(volname)];
      return Ok(0);
    }
  }
}
