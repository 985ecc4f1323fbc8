/**
 * Export-rule handling of a NetApp volume (storage/vendors/PolicyRulesNetApp.py).
 *
 * An export policy holds rules, each a client-match string (a host or
 * network) at a rule index; the controller answers listing requests page by
 * page. The controller is not part of this model: every reply it gives is a
 * parameter of the operation that receives it (`PageReply` for a page of the
 * rule listing, `Outcome` for a request that changes something), and the
 * requests that change the controller are recorded, in order, in `issued`.
 *
 * A listing is a Python dictionary from rule index to client-match; its key
 * order, the order in which indices were first seen, decides which rule
 * `GetRule` reports, so it is modelled as a sequence of pairs with distinct
 * keys (RuleListing).
 */
module NetAppRules {
  import opened Common
  import opened DictUtils
  import ServerPath

  const NotInitialised :=
    "volume dictionary has not been initialised. This method needs to be called from an existing volume."
  const VserverRequired := "a vserver is required"

  /** The controller's answer to a request that changes something. */
  datatype Outcome = Succeeded | Failed(errno: int, reason: string)

  /**
   * The controller's answer to one `export-rule-get-iter` request: an error,
   * or the (rule-index, client-match) records of the page and the tag of the
   * next page ("" when there is none).
   */
  datatype PageReply =
    | PageFailed(errno: int, reason: string)
    | Page(records: seq<(string, string)>, nextTag: string)

  /** A request that changes the controller. */
  datatype Request =
    | CreatePolicyRequest(policy: string)
    | CreateRuleRequest(policy: string, clientMatch: string, ruleIndex: string)
    | DestroyRuleRequest(policy: string, ruleIndex: string)
    | SetIndexRequest(policy: string, ruleIndex: string, newIndex: int)

  // -----------------------------------------------------------------------
  // Rule listings: insertion-ordered dictionaries from index to client-match

  type RuleListing = seq<(string, string)>

  /** The keys of a listing, in order. */
  function KeysOf(d: RuleListing): (keys: seq<string>)
    ensures |keys| == |d|
    ensures forall i :: 0 <= i < |d| ==> keys[i] == d[i].0
  {
    if d == [] then [] else [d[0].0] + KeysOf(d[1..])
  }

  predicate DistinctKeys(d: RuleListing)
  {
    Distinct(KeysOf(d))
  }

  /** The dictionary a listing stands for. */
  function ToMap(d: RuleListing): (m: map<string, string>)
    ensures forall k :: k in m <==> k in KeysOf(d)
  {
    if d == [] then map[] else ToMap(d[1..])[d[0].0 := d[0].1]
  }

  /** In a listing with distinct keys, every entry is what the dictionary holds. */
  lemma {:induction false} ToMapAt(d: RuleListing, i: nat)
    requires DistinctKeys(d) && i < |d|
    ensures d[i].0 in ToMap(d) && ToMap(d)[d[i].0] == d[i].1
  {
    if i > 0 {
      assert KeysOf(d[1..]) == KeysOf(d)[1..];
      assert d[1..][i - 1] == d[i];
      ToMapAt(d[1..], i - 1);
      assert KeysOf(d)[0] != KeysOf(d)[i];
    }
  }

  /**
   * `d[k] = v`: an existing key keeps its position and takes the new value,
   * a new key goes to the end.
   */
  function Put(d: RuleListing, k: string, v: string): (r: RuleListing)
    ensures k !in KeysOf(d) ==> r == d + [(k, v)]
    ensures k in KeysOf(d) ==> KeysOf(r) == KeysOf(d)
  {
    if d == [] then [(k, v)]
    else if d[0].0 == k then [(k, v)] + d[1..]
    else
      var rest := Put(d[1..], k, v);
      assert KeysOf(d[1..]) == KeysOf(d)[1..];
      [d[0]] + rest
  }

  /** Storing an entry updates the dictionary at that key only. */
  lemma {:induction false} PutToMap(d: RuleListing, k: string, v: string)
    ensures ToMap(Put(d, k, v)) == ToMap(d)[k := v]
  {
    if d != [] && d[0].0 != k {
      PutToMap(d[1..], k, v);
      var r := [d[0]] + Put(d[1..], k, v);
      assert r[1..] == Put(d[1..], k, v);
    }
  }

  /** Storing an entry leaves the old entries or the new one, nothing else. */
  lemma {:induction false} PutEntries(d: RuleListing, k: string, v: string)
    ensures forall e :: e in Put(d, k, v) ==> e == (k, v) || e in d
    ensures forall key :: key in KeysOf(d) ==> key in KeysOf(Put(d, k, v))
    ensures k in KeysOf(Put(d, k, v))
  {
    if d != [] && d[0].0 != k {
      PutEntries(d[1..], k, v);
      assert KeysOf(d[1..]) == KeysOf(d)[1..];
    }
    if k !in KeysOf(d) {
      assert KeysOf(Put(d, k, v)) == KeysOf(d) + [k];
    }
  }

  /** Storing an entry keeps the keys distinct. */
  lemma {:induction false} PutDistinct(d: RuleListing, k: string, v: string)
    requires DistinctKeys(d)
    ensures DistinctKeys(Put(d, k, v))
  {
    if k !in KeysOf(d) {
      var r := d + [(k, v)];
      assert KeysOf(r) == KeysOf(d) + [k];
    }
  }

  /** The records of one page stored one after the other. */
  function PutAll(d: RuleListing, records: seq<(string, string)>): (r: RuleListing)
    ensures DistinctKeys(d) ==> DistinctKeys(r)
    decreases |records|
  {
    if records == [] then d
    else
      var next := Put(d, records[0].0, records[0].1);
      assert DistinctKeys(d) ==> DistinctKeys(next) by {
        if DistinctKeys(d) {
          PutDistinct(d, records[0].0, records[0].1);
        }
      }
      PutAll(next, records[1..])
  }

  /** Storing records one by one is building the dictionary from all of them. */
  lemma {:induction false} PutAllIsDictOf(d: RuleListing, before: seq<(string, string)>, records: seq<(string, string)>)
    requires ToMap(d) == DictOf(before)
    ensures ToMap(PutAll(d, records)) == DictOf(before + records)
    decreases |records|
  {
    if records == [] {
      assert before + records == before;
    } else {
      var k, v := records[0].0, records[0].1;
      DictOfSnoc(before, (k, v));
      PutToMap(d, k, v);
      PutAllIsDictOf(Put(d, k, v), before + [(k, v)], records[1..]);
      PutAllStep(d, records);
      SplitFirst(before, records);
    }
  }

  /** Storing a page's records starts with its first record. */
  lemma PutAllStep(d: RuleListing, records: seq<(string, string)>)
    requires records != []
    ensures PutAll(d, records) == PutAll(Put(d, records[0].0, records[0].1), records[1..])
  {
  }

  lemma SplitFirst(before: seq<(string, string)>, records: seq<(string, string)>)
    requires records != []
    ensures before + [(records[0].0, records[0].1)] + records[1..] == before + records
  {
    assert records == [records[0]] + records[1..];
  }

  // -----------------------------------------------------------------------
  // Paged listing

  /** The listing stops within `pages`: some page fails or has no next tag. */
  predicate Ends(pages: seq<PageReply>)
  {
    pages != [] && (pages[0].PageFailed? || pages[0].nextTag == "" || Ends(pages[1..]))
  }

  /**
   * The outcome of `GetRuleAll` given the controller's successive pages,
   * starting from the entries `acc` already gathered: `None` when a page
   * fails, otherwise every record up to the page without a next tag.
   */
  function Listing(pages: seq<PageReply>, acc: RuleListing): (r: Option<RuleListing>)
    requires Ends(pages)
    ensures r.Some? && DistinctKeys(acc) ==> DistinctKeys(r.value)
    decreases |pages|
  {
    if pages[0].PageFailed? then None
    else
      var acc' := PutAll(acc, pages[0].records);
      if pages[0].nextTag == "" then Some(acc') else Listing(pages[1..], acc')
  }

  /** Every record of the pages the listing reads, in order. */
  function RecordsRead(pages: seq<PageReply>): seq<(string, string)>
    requires Ends(pages)
    decreases |pages|
  {
    if pages[0].PageFailed? then []
    else if pages[0].nextTag == "" then pages[0].records
    else pages[0].records + RecordsRead(pages[1..])
  }

  /** Some page the listing reads is an error. */
  predicate SomePageFails(pages: seq<PageReply>)
    requires Ends(pages)
    decreases |pages|
  {
    pages[0].PageFailed? || (pages[0].nextTag != "" && SomePageFails(pages[1..]))
  }

  /**
   * The listing fails exactly when a page it reads fails, and otherwise
   * holds `dict(records)` of all records read, a later record overwriting an
   * earlier one with the same index.
   */
  lemma {:induction false} ListingIsDictOfRecords(pages: seq<PageReply>, acc: RuleListing, before: seq<(string, string)>)
    requires Ends(pages)
    requires ToMap(acc) == DictOf(before)
    ensures Listing(pages, acc).None? <==> SomePageFails(pages)
    ensures Listing(pages, acc).Some? ==> ToMap(Listing(pages, acc).value) == DictOf(before + RecordsRead(pages))
    decreases |pages|
  {
    if pages[0].Page? {
      PutAllIsDictOf(acc, before, pages[0].records);
      if pages[0].nextTag != "" {
        ListingIsDictOfRecords(pages[1..], PutAll(acc, pages[0].records), before + pages[0].records);
        ListingUnfold(pages, acc, before);
      }
    }
  }

  /** The step of ListingIsDictOfRecords: past a page with a next tag, both sides move on. */
  lemma ListingUnfold(pages: seq<PageReply>, acc: RuleListing, before: seq<(string, string)>)
    requires Ends(pages) && pages[0].Page? && pages[0].nextTag != ""
    requires Listing(pages[1..], PutAll(acc, pages[0].records)).Some? ==>
               ToMap(Listing(pages[1..], PutAll(acc, pages[0].records)).value) ==
               DictOf(before + pages[0].records + RecordsRead(pages[1..]))
    ensures Listing(pages, acc).Some? ==> ToMap(Listing(pages, acc).value) == DictOf(before + RecordsRead(pages))
  {
    var rest := Listing(pages[1..], PutAll(acc, pages[0].records));
    assert Listing(pages, acc) == rest;
    var all := before + pages[0].records + RecordsRead(pages[1..]);
    assert RecordsRead(pages) == pages[0].records + RecordsRead(pages[1..]);
    assert all == before + RecordsRead(pages);
  }

  /** `GetRule`'s search: the first index, in listing order, whose client-match is `ip`. */
  function FirstKeyWithValue(d: RuleListing, ip: string): (r: Option<string>)
    ensures r.None? <==> forall i :: 0 <= i < |d| ==> d[i].1 != ip
    ensures r.Some? ==> exists i :: 0 <= i < |d| && d[i] == (r.value, ip) &&
                                    forall j :: 0 <= j < i ==> d[j].1 != ip
  {
    if d == [] then None
    else if d[0].1 == ip then Some(d[0].0)
    else
      var r := FirstKeyWithValue(d[1..], ip);
      assert r.Some? ==> exists i :: 0 <= i < |d| && d[i] == (r.value, ip) &&
                                     forall j :: 0 <= j < i ==> d[j].1 != ip by {
        if r.Some? {
          var i :| 0 <= i < |d[1..]| && d[1..][i] == (r.value, ip) &&
                   forall j :: 0 <= j < i ==> d[1..][j].1 != ip;
          assert d[i + 1] == (r.value, ip);
          forall j | 0 <= j < i + 1 ensures d[j].1 != ip {
            if j > 0 {
              assert d[j] == d[1..][j - 1];
            }
          }
        }
      }
      r
  }

  /** What `GetRule` returns for a listing: `None` for a failed listing. */
  function RuleIndex(listing: Option<RuleListing>, ip: string): Option<string>
  {
    if listing.None? then None else FirstKeyWithValue(listing.value, ip)
  }

  /**
   * The index `GetRule` reports holds `ip` in the policy's rules, and it
   * reports none exactly when no rule holds `ip` or the listing failed.
   */
  lemma RuleIndexMatches(listing: Option<RuleListing>, ip: string)
    requires listing.Some? ==> DistinctKeys(listing.value)
    ensures RuleIndex(listing, ip).Some? ==>
              listing.Some? && RuleIndex(listing, ip).value in ToMap(listing.value) &&
              ToMap(listing.value)[RuleIndex(listing, ip).value] == ip
    ensures RuleIndex(listing, ip).None? <==>
              listing.None? || forall k :: k in ToMap(listing.value) ==> ToMap(listing.value)[k] != ip
  {
    if listing.Some? {
      var d := listing.value;
      forall i | 0 <= i < |d| ensures d[i].0 in ToMap(d) && ToMap(d)[d[i].0] == d[i].1 {
        ToMapAt(d, i);
      }
      if RuleIndex(listing, ip).None? {
        forall k | k in ToMap(d) ensures ToMap(d)[k] != ip {
          var i :| 0 <= i < |d| && KeysOf(d)[i] == k;
          assert d[i].0 == k;
        }
      } else {
        var i :| 0 <= i < |d| && d[i] == (RuleIndex(listing, ip).value, ip) &&
                 forall j :: 0 <= j < i ==> d[j].1 != ip;
        assert d[i].0 == RuleIndex(listing, ip).value;
      }
    }
  }

  // -----------------------------------------------------------------------
  // Re-indexing after a delete

  /** Python's `sorted` on strings: lexicographic, smallest first. */
  predicate SortedStrings(s: seq<string>)
  {
    forall i, j :: 0 <= i < j < |s| ==> LexLessEq(s[i], s[j])
  }

  function Insert(x: string, s: seq<string>): (r: seq<string>)
    ensures multiset(r) == multiset(s) + multiset{x}
  {
    if s == [] then [x]
    else if LexLessEq(x, s[0]) then [x] + s
    else
      assert s == [s[0]] + s[1..];
      [s[0]] + Insert(x, s[1..])
  }

  /** Inserting into a sorted list keeps it sorted. */
  lemma {:induction false} InsertSorted(x: string, s: seq<string>)
    requires SortedStrings(s)
    ensures SortedStrings(Insert(x, s))
  {
    if s == [] {
    } else if LexLessEq(x, s[0]) {
      var r := [x] + s;
      forall i, j | 0 <= i < j < |r| ensures LexLessEq(r[i], r[j]) {
        if i == 0 && j > 1 {
          assert LexLessEq(s[0], s[j - 1]);
          if x != s[0] && s[0] != s[j - 1] {
            LexLessTransitive(x, s[0], s[j - 1]);
          }
        }
      }
    } else {
      LexLessTotal(x, s[0]);
      var rest := Insert(x, s[1..]);
      assert SortedStrings(s[1..]) by {
        forall i, j | 0 <= i < j < |s[1..]| ensures LexLessEq(s[1..][i], s[1..][j]) {
          assert s[1..][i] == s[i + 1] && s[1..][j] == s[j + 1];
        }
      }
      InsertSorted(x, s[1..]);
      assert s == [s[0]] + s[1..];
      forall y | y in rest ensures LexLessEq(s[0], y) {
        assert y in multiset(rest);
        if y != x {
          assert y in multiset(s[1..]);
          var j :| 0 <= j < |s[1..]| && s[1..][j] == y;
          assert s[j + 1] == y;
        }
      }
      var r := [s[0]] + rest;
      forall i, j | 0 <= i < j < |r| ensures LexLessEq(r[i], r[j]) {
        if i == 0 {
          assert r[j] == rest[j - 1];
        } else {
          assert r[i] == rest[i - 1] && r[j] == rest[j - 1];
        }
      }
    }
  }

  /** `sorted(keys)`: the same keys, in lexicographic order. */
  function SortStrings(s: seq<string>): (r: seq<string>)
    ensures SortedStrings(r)
    ensures multiset(r) == multiset(s)
  {
    if s == [] then []
    else
      assert s == [s[0]] + s[1..];
      InsertSorted(s[0], SortStrings(s[1..]));
      Insert(s[0], SortStrings(s[1..]))
  }

  /** The keys `DeleteRule` walks: `sorted(list(rules))`, none for an empty or failed listing. */
  function WalkedKeys(listing: Option<RuleListing>): (keys: seq<string>)
    ensures listing.Some? ==> multiset(keys) == multiset(KeysOf(listing.value))
    ensures listing.None? ==> keys == []
    ensures SortedStrings(keys)
  {
    if listing.None? then [] else SortStrings(KeysOf(listing.value))
  }

  /**
   * The re-index requests: the i-th key in sorted order is moved to index
   * i+1. (The skip at PolicyRulesNetApp.py:231 compares a string key with an
   * integer, which is never equal, so every key is re-indexed.)
   */
  function ReindexPlan(policy: string, keys: seq<string>): (plan: seq<Request>)
    ensures |plan| == |keys|
    ensures forall i :: 0 <= i < |keys| ==> plan[i] == SetIndexRequest(policy, keys[i], i + 1)
  {
    if keys == [] then []
    else ReindexPlan(policy, keys[..|keys| - 1]) + [SetIndexRequest(policy, keys[|keys| - 1], |keys|)]
  }

  /**
   * Indices are strings, so the renumbering follows their text: of the
   * indices "2", "10" and "1", "10" is the second and becomes index 2.
   */
  lemma RenumberingIsLexicographic(policy: string, listing: RuleListing)
    requires KeysOf(listing) == ["2", "10", "1"]
    ensures ReindexPlan(policy, WalkedKeys(Some(listing))) ==
            [SetIndexRequest(policy, "1", 1), SetIndexRequest(policy, "10", 2), SetIndexRequest(policy, "2", 3)]
  {
    SortExample();
  }

  lemma SortExample()
    ensures SortStrings(["2", "10", "1"]) == ["1", "10", "2"]
  {
    assert ["2", "10", "1"][1..] == ["10", "1"];
    assert ["10", "1"][1..] == ["1"];
    assert ["1"][1..] == [];
    assert SortStrings(["1"]) == ["1"];
    assert !LexLessEq("10", "1") by {
      assert "10"[1..] == "0" && "1"[1..] == "";
    }
    assert Insert("10", []) == ["10"];
    assert Insert("10", ["1"]) == ["1", "10"] by {
      assert ["1"][1..] == [];
    }
    assert !LexLessEq("2", "1") && !LexLessEq("2", "10");
    assert Insert("2", []) == ["2"];
    assert Insert("2", ["10"]) == ["10", "2"] by {
      assert ["10"][1..] == [];
    }
    assert Insert("2", ["1", "10"]) == ["1", "10", "2"] by {
      assert ["1", "10"][1..] == ["10"];
    }
  }

  /** The position of the first failed reply among the first `n`, or `n`. */
  function FirstFailure(replies: seq<Outcome>, n: nat): (k: nat)
    requires n <= |replies|
    ensures k <= n
    ensures forall j :: 0 <= j < k ==> replies[j].Succeeded?
    ensures k < n ==> replies[k].Failed?
  {
    if n == 0 then 0
    else if FirstFailure(replies, n - 1) < n - 1 then FirstFailure(replies, n - 1)
    else if replies[n - 1].Failed? then n - 1
    else n
  }

  /**
   * The moves actually sent for `plan` given the controller's replies: all
   * of them up to and including the first that fails.
   */
  function MovesSent(plan: seq<Request>, replies: seq<Outcome>): (sent: seq<Request>)
    requires |plan| <= |replies|
    ensures FirstFailure(replies, |plan|) < |plan| ==> |sent| == FirstFailure(replies, |plan|) + 1
    ensures FirstFailure(replies, |plan|) == |plan| ==> sent == plan
    ensures sent <= plan
  {
    var k := FirstFailure(replies, |plan|);
    plan[..if k < |plan| then k + 1 else k]
  }

  // -----------------------------------------------------------------------
  // The policy handle

  class PolicyRulesNetApp {
    /** `clustertoconnect[0]`: the cluster the handle talks to. */
    var cluster: string
    /** `self.volume`: the volume's attributes, `vserver` and `policy` among them. */
    var volume: map<string, string>
    /** Whether `server_zapi` has been set up. */
    var connected: bool
    /** The changing requests sent to the controller, oldest first. */
    var issued: seq<Request>

    /**
     * A handle on a volume whose attributes are `volume` (for an existing
     * volume, what `GetInfoPath` read; that call is not part of this model).
     */
    constructor (cluster: string, volume: map<string, string>)
      ensures this.cluster == cluster && this.volume == volume
      ensures !connected && issued == []
    {
      this.cluster := cluster;
      this.volume := volume;
      connected := false;
      issued := [];
    }

    /** `NewVolume(serverpath, vserver)`: a handle whose volume is only known by its vserver. */
    static method NewVolume(serverpath: string, vserver: string, config: ServerPath.Config)
      returns (r: Result<PolicyRulesNetApp>)
      ensures ServerPath.Parse(serverpath, config).Raised? ==>
                r == Raised(ServerPath.Parse(serverpath, config).exc)
      ensures ServerPath.Parse(serverpath, config).Ok? ==>
                && r.Ok? && fresh(r.value)
                && r.value.cluster == ServerPath.Parse(serverpath, config).value.cluster
                && r.value.volume == map["vserver" := vserver]
                && !r.value.connected && r.value.issued == []
    {
      var parsed := ServerPath.Parse(serverpath, config);
      if parsed.Raised? {
        return Raised(parsed.exc);
      }
      var h := new PolicyRulesNetApp(parsed.value.cluster, map["vserver" := vserver]);
      return Ok(h);
    }

    /**
     * `PolicyCreate`: proceeds only when no server connection exists yet and
     * the volume has a vserver; in every other case, including an existing
     * connection, it raises. A failed create raises too.
     */
    method PolicyCreate(policy: string, reply: Outcome) returns (r: Result<int>)
      modifies this`connected, this`issued
      ensures !(!old(connected) && "vserver" in volume) ==>
                r == Raised(StorageException(VserverRequired)) &&
                connected == old(connected) && issued == old(issued)
      ensures !old(connected) && "vserver" in volume ==>
                connected && issued == old(issued) + [CreatePolicyRequest(policy)]
      ensures !old(connected) && "vserver" in volume && reply.Failed? ==>
                r == Raised(StorageException("Error while creating policy: " + reply.reason))
      ensures !old(connected) && "vserver" in volume && reply.Succeeded? ==> r == Ok(0)
    {
      if !connected && "vserver" in volume {
        connected := true;
      } else {
        return Raised(StorageException(VserverRequired));
      }
      issued := issued + [CreatePolicyRequest(policy)];
      if reply.Failed? {
        return Raised(StorageException("Error while creating policy: " + reply.reason));
      }
      return Ok(0);
    }

    /**
     * `GetRuleAll`: reads the listing page by page until a page has no next
     * tag. A failed page gives `None`. The request names the volume's
     * vserver, so a volume without one raises `KeyError` before anything is
     * sent.
     */
    method GetRuleAll(policy: string, pages: seq<PageReply>) returns (r: Result<Option<RuleListing>>)
      requires Ends(pages)
      modifies this`connected
      ensures "vserver" !in volume ==> r == Raised(KeyError("vserver")) && connected == old(connected)
      ensures "vserver" in volume ==> r == Ok(Listing(pages, [])) && connected
    {
      if "vserver" !in volume {
        return Raised(KeyError("vserver"));
      }
      var tag := "more";
      var all: RuleListing := [];
      var first := 0;
      while tag != ""
        invariant 0 <= first <= |pages|
        invariant first > 0 ==> connected
        invariant tag == "" ==> first > 0
        invariant tag != "" ==> first < |pages| && Ends(pages[first..]) &&
                                Listing(pages, []) == Listing(pages[first..], all)
        invariant tag == "" ==> Listing(pages, []) == Some(all)
        decreases |pages| - first
      {
        if !connected {
          connected := true;
        }
        var page := pages[first];
        if page.PageFailed? {
          return Ok(None);
        }
        all := PutAll(all, page.records);
        tag := page.nextTag;
        assert pages[first..][1..] == pages[first + 1..];
        first := first + 1;
      }
      return Ok(Some(all));
    }

    /** `GetRuleAllREST`: the listing of the volume's own policy. */
    method GetRuleAllREST(pages: seq<PageReply>) returns (r: Result<Option<RuleListing>>)
      requires Ends(pages)
      modifies this`connected
      ensures "policy" !in volume ==> r == Raised(StorageException(NotInitialised)) && connected == old(connected)
      ensures "policy" in volume && "vserver" !in volume ==> r == Raised(KeyError("vserver"))
      ensures "policy" in volume && "vserver" in volume ==> r == Ok(Listing(pages, []))
    {
      if "policy" in volume {
        r := GetRuleAll(volume["policy"], pages);
      } else {
        r := Raised(StorageException(NotInitialised));
      }
    }

    /**
     * `GetRule`: the index of the first rule, in listing order, whose
     * client-match is `ip`; `None` when there is none or the listing failed.
     */
    method GetRule(policy: string, ip: string, pages: seq<PageReply>) returns (r: Result<Option<string>>)
      requires Ends(pages)
      modifies this`connected
      ensures "vserver" !in volume ==> r == Raised(KeyError("vserver")) && connected == old(connected)
      ensures "vserver" in volume ==> r == Ok(RuleIndex(Listing(pages, []), ip)) && connected
    {
      var all := GetRuleAll(policy, pages);
      if all.Raised? {
        return Raised(all.exc);
      }
      return Ok(RuleIndex(all.value, ip));
    }

    /**
     * `CreateRule`: when the listing shows `ip` already, nothing is sent and
     * the result is 0; otherwise a rule for `ip` is created at index "1", on
     * top of the others, and a failed create gives `None`.
     */
    method CreateRule(policy: string, ip: string, pages: seq<PageReply>, reply: Outcome)
      returns (r: Result<Option<int>>)
      requires Ends(pages)
      modifies this`connected, this`issued
      ensures "vserver" !in volume ==> r == Raised(KeyError("vserver")) && issued == old(issued)
      ensures "vserver" in volume && RuleIndex(Listing(pages, []), ip).Some? ==>
                r == Ok(Some(0)) && issued == old(issued)
      ensures "vserver" in volume && RuleIndex(Listing(pages, []), ip).None? ==>
                issued == old(issued) + [CreateRuleRequest(policy, ip, "1")] &&
                r == (if reply.Failed? then Ok(None) else Ok(Some(0)))
    {
      var found := GetRule(policy, ip, pages);
      if found.Raised? {
        return Raised(found.exc);
      }
      if found.value.Some? {
        return Ok(Some(0));
      }
      // The listing above has set up the connection.
      issued := issued + [CreateRuleRequest(policy, ip, "1")];
      if reply.Failed? {
        return Ok(None);
      }
      return Ok(Some(0));
    }

    /** `CreateRuleREST`: `CreateRule` on the volume's own policy. */
    method CreateRuleREST(ip: string, pages: seq<PageReply>, reply: Outcome) returns (r: Result<Option<int>>)
      requires Ends(pages)
      modifies this`connected, this`issued
      ensures "policy" !in volume ==> r == Raised(StorageException(NotInitialised)) && issued == old(issued)
      ensures "policy" in volume && "vserver" !in volume ==>
                r == Raised(KeyError("vserver")) && issued == old(issued)
      ensures "policy" in volume && "vserver" in volume && RuleIndex(Listing(pages, []), ip).None? ==>
                issued == old(issued) + [CreateRuleRequest(volume["policy"], ip, "1")] &&
                r == (if reply.Failed? then Ok(None) else Ok(Some(0)))
      ensures "policy" in volume && "vserver" in volume && RuleIndex(Listing(pages, []), ip).Some? ==>
                r == Ok(Some(0)) && issued == old(issued)
    {
      if "policy" in volume {
        r := CreateRule(volume["policy"], ip, pages, reply);
      } else {
        r := Raised(StorageException(NotInitialised));
      }
    }

    /**
     * `DeleteRule`: finds `ip`'s index (an absent rule, or the index "",
     * gives 0 and sends nothing), destroys that rule (a failure gives
     * `None`), lists the policy again and moves the i-th index in sorted
     * order to i+1, stopping with `None` at the first failed move.
     *
     * `before` and `after` are the pages of the two listings, `destroyReply`
     * the answer to the destroy and `moveReplies` the answers to the moves.
     */
    method DeleteRule(policy: string, ip: string, before: seq<PageReply>, destroyReply: Outcome,
                      after: seq<PageReply>, moveReplies: seq<Outcome>) returns (r: Result<Option<int>>)
      requires Ends(before) && Ends(after)
      requires |WalkedKeys(Listing(after, []))| <= |moveReplies|
      modifies this`connected, this`issued
      ensures "vserver" !in volume ==> r == Raised(KeyError("vserver")) && issued == old(issued)
      ensures "vserver" in volume && !Truthy(RuleIndex(Listing(before, []), ip)) ==>
                r == Ok(Some(0)) && issued == old(issued)
      ensures "vserver" in volume && Truthy(RuleIndex(Listing(before, []), ip)) && destroyReply.Failed? ==>
                r == Ok(None) &&
                issued == old(issued) + [DestroyRuleRequest(policy, RuleIndex(Listing(before, []), ip).value)]
      ensures "vserver" in volume && Truthy(RuleIndex(Listing(before, []), ip)) && destroyReply.Succeeded? ==>
                var plan := ReindexPlan(policy, WalkedKeys(Listing(after, [])));
                && issued == old(issued) + [DestroyRuleRequest(policy, RuleIndex(Listing(before, []), ip).value)]
                                         + MovesSent(plan, moveReplies)
                && r == (if FirstFailure(moveReplies, |plan|) < |plan| then Ok(None) else Ok(Some(0)))
    {
      var index := GetRule(policy, ip, before);
      if index.Raised? {
        return Raised(index.exc);
      }
      if !Truthy(index.value) {
        return Ok(Some(0));
      }
      // The listing above has set up the connection.
      issued := issued + [DestroyRuleRequest(policy, index.value.value)];
      if destroyReply.Failed? {
        return Ok(None);
      }
      var rules := GetRuleAll(policy, after);
      var keys: seq<string> := [];
      if rules.Ok? && rules.value.Some? && rules.value.value != [] {
        keys := SortStrings(KeysOf(rules.value.value));
      }
      assert keys == WalkedKeys(Listing(after, []));
      var allMoved := Reindex(policy, keys, moveReplies);
      if !allMoved {
        return Ok(None);
      }
      return Ok(Some(0));
    }

    /**
     * The re-index loop of `DeleteRule`: moves the i-th key to index i+1,
     * in order, and stops at the first move the controller refuses.
     */
    method Reindex(policy: string, keys: seq<string>, replies: seq<Outcome>) returns (allMoved: bool)
      requires |keys| <= |replies|
      modifies this`issued
      ensures issued == old(issued) + MovesSent(ReindexPlan(policy, keys), replies)
      ensures allMoved <==> FirstFailure(replies, |keys|) == |keys|
    {
      var plan := ReindexPlan(policy, keys);
      for i := 0 to |keys|
        invariant issued == old(issued) + plan[..i]
        invariant forall j :: 0 <= j < i ==> replies[j].Succeeded?
      {
        issued := issued + [SetIndexRequest(policy, keys[i], i + 1)];
        assert plan[..i + 1] == plan[..i] + [plan[i]];
        if replies[i].Failed? {
          FirstFailureAt(replies, |plan|, i);
          return false;
        }
      }
      assert plan[..|keys|] == plan;
      FirstFailureNone(replies, |plan|);
      return true;
    }

    /** `DeleteRuleREST`: `DeleteRule` on the volume's own policy. */
    method DeleteRuleREST(ip: string, before: seq<PageReply>, destroyReply: Outcome,
                          after: seq<PageReply>, moveReplies: seq<Outcome>) returns (r: Result<Option<int>>)
      requires Ends(before) && Ends(after)
      requires |WalkedKeys(Listing(after, []))| <= |moveReplies|
      modifies this`connected, this`issued
      ensures "policy" !in volume ==> r == Raised(StorageException(NotInitialised)) && issued == old(issued)
      ensures "policy" in volume && "vserver" !in volume ==>
                r == Raised(KeyError("vserver")) && issued == old(issued)
      ensures "policy" in volume && "vserver" in volume && !Truthy(RuleIndex(Listing(before, []), ip)) ==>
                r == Ok(Some(0)) && issued == old(issued)
      ensures "policy" in volume && "vserver" in volume && Truthy(RuleIndex(Listing(before, []), ip)) &&
              destroyReply.Failed? ==>
                r == Ok(None) &&
                issued == old(issued) + [DestroyRuleRequest(volume["policy"], RuleIndex(Listing(before, []), ip).value)]
      ensures "policy" in volume && "vserver" in volume && Truthy(RuleIndex(Listing(before, []), ip)) &&
              destroyReply.Succeeded? ==>
                var plan := ReindexPlan(volume["policy"], WalkedKeys(Listing(after, [])));
                && issued == old(issued) + [DestroyRuleRequest(volume["policy"], RuleIndex(Listing(before, []), ip).value)]
                                         + MovesSent(plan, moveReplies)
                && r == (if FirstFailure(moveReplies, |plan|) < |plan| then Ok(None) else Ok(Some(0)))
    {
      if "policy" in volume {
        r := DeleteRule(volume["policy"], ip, before, destroyReply, after, moveReplies);
      } else {
        r := Raised(StorageException(NotInitialised));
      }
    }
  }

  /** A failed reply at `i`, after only successes, is the first failure. */
  lemma FirstFailureAt(replies: seq<Outcome>, n: nat, i: nat)
    requires i < n <= |replies|
    requires forall j :: 0 <= j < i ==> replies[j].Succeeded?
    requires replies[i].Failed?
    ensures FirstFailure(replies, n) == i
  {
  }

  /** When all of the first `n` replies succeed, there is no failure among them. */
  lemma FirstFailureNone(replies: seq<Outcome>, n: nat)
    requires n <= |replies|
    requires forall j :: 0 <= j < n ==> replies[j].Succeeded?
    ensures FirstFailure(replies, n) == n
  {
  }
}
