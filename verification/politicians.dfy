/** The politician registry (`politicians_config.py`): one configuration per
    tracked politician, kept in a name-keyed table whose insertion order is
    the order every listing and search follows. Persistence is not part of
    the model: `save_config` changes nothing the registry's operations can
    observe. */
module Politicians {
  import opened Wrappers

  // ---------------------------------------------------------------------
  // Status
  // ---------------------------------------------------------------------

  /** `PoliticianStatus` (`politicians_config.py:13-17`). */
  datatype Status = Active | Inactive | Testing {

    /** The enum's `.value`. */
    function Value(): string {
      match this
      case Active => "active"
      case Inactive => "inactive"
      case Testing => "testing"
    }
  }

  /** `PoliticianStatus(v)`: the member whose value is `v`; any other string
      raises `ValueError`. */
  function StatusFromValue(v: string): (r: Result<Status, string>)
    ensures r.Success? <==> v == "active" || v == "inactive" || v == "testing"
    ensures r.Success? ==> r.value.Value() == v
  {
    if v == "active" then Success(Active)
    else if v == "inactive" then Success(Inactive)
    else if v == "testing" then Success(Testing)
    else Failure("ValueError")
  }

  /** Every status is recovered from its value. */
  lemma StatusRoundTrip(s: Status)
    ensures StatusFromValue(s.Value()) == Success(s)
  {
  }

  /** Distinct statuses have distinct values. */
  lemma StatusValueInjective(s: Status, t: Status)
    requires s.Value() == t.Value()
    ensures s == t
  {
    StatusRoundTrip(s);
    StatusRoundTrip(t);
  }

  // ---------------------------------------------------------------------
  // Configurations and their dictionary form
  // ---------------------------------------------------------------------

  /** `PoliticianConfig`: ten fields, the last five with defaults. */
  datatype Config = Config(
    name: string, fullName: string, searchName: string, discordWebhook: string,
    channelName: string, status: Status, description: string, party: string,
    state: string, chamber: string)

  /** The dataclass's field names, as `asdict` writes them. */
  const RequiredFields: set<string> :=
    {"name", "full_name", "search_name", "discord_webhook", "channel_name"}
  const OptionalFields: set<string> := {"status", "description", "party", "state", "chamber"}
  const AllFields: set<string> := RequiredFields + OptionalFields

  /** The string-valued fields: every field but `status`. */
  predicate IsTextField(key: string) {
    key in AllFields && key != "status"
  }

  /** A string-valued field read by its name. */
  function TextField(c: Config, key: string): (v: Option<string>)
    ensures v.Some? <==> IsTextField(key)
  {
    if key == "name" then Some(c.name)
    else if key == "full_name" then Some(c.fullName)
    else if key == "search_name" then Some(c.searchName)
    else if key == "discord_webhook" then Some(c.discordWebhook)
    else if key == "channel_name" then Some(c.channelName)
    else if key == "description" then Some(c.description)
    else if key == "party" then Some(c.party)
    else if key == "state" then Some(c.state)
    else if key == "chamber" then Some(c.chamber)
    else None
  }

  /** `to_dict`: every field under its name, the status as its string
      value. */
  function ToDict(c: Config): (d: map<string, string>)
    ensures d.Keys == AllFields
    ensures d["status"] == c.status.Value()
    ensures forall key :: IsTextField(key) ==> key in d && Some(d[key]) == TextField(c, key)
  {
    map["name" := c.name, "full_name" := c.fullName, "search_name" := c.searchName,
        "discord_webhook" := c.discordWebhook, "channel_name" := c.channelName,
        "status" := c.status.Value(), "description" := c.description,
        "party" := c.party, "state" := c.state, "chamber" := c.chamber]
  }

  /** `from_dict`: `KeyError` without a status, `ValueError` for an unknown
      status value, `TypeError` for a key that names no field or a missing
      required field; otherwise the configuration, with the defaults for
      the optional fields that are absent. */
  function FromDict(d: map<string, string>): (r: Result<Config, string>)
    ensures r.Success? <==>
      && "status" in d && StatusFromValue(d["status"]).Success?
      && d.Keys <= AllFields && RequiredFields <= d.Keys
    ensures r.Success? ==> r.value.status.Value() == d["status"]
    ensures r.Success? ==> forall key :: key in d && IsTextField(key) ==> TextField(r.value, key) == Some(d[key])
  {
    if "status" !in d then Failure("KeyError")
    else
      match StatusFromValue(d["status"])
      case Failure(e) => Failure(e)
      case Success(s) =>
        if !(d.Keys <= AllFields) || !(RequiredFields <= d.Keys) then Failure("TypeError")
        else
          Success(Config(d["name"], d["full_name"], d["search_name"], d["discord_webhook"],
            d["channel_name"], s, Lookup(d, "description", ""), Lookup(d, "party", ""),
            Lookup(d, "state", ""), Lookup(d, "chamber", "House")))
  }

  /** `d.get(key, default)`. */
  function Lookup(d: map<string, string>, key: string, default: string): string {
    if key in d then d[key] else default
  }

  /** Reading back what was written gives the configuration back, status
      enum included. */
  lemma DictRoundTrip(c: Config)
    ensures FromDict(ToDict(c)) == Success(c)
  {
    var d := ToDict(c);
    StatusRoundTrip(c.status);
    assert d.Keys == AllFields;
  }

  /** A stored status that is not one of the three values is refused. */
  lemma UnknownStatusRefused(d: map<string, string>)
    requires "status" in d && d["status"] != "active" && d["status"] != "inactive" && d["status"] != "testing"
    ensures FromDict(d).Failure?
  {
  }

  // ---------------------------------------------------------------------
  // The registry
  // ---------------------------------------------------------------------

  datatype Entry = Entry(key: string, config: Config)

  /** `self.politicians`: a dict, so its keys are distinct and its entries
      are kept in insertion order. */
  datatype Registry = Registry(entries: seq<Entry>)

  predicate Valid(r: Registry) {
    forall i, j :: 0 <= i < j < |r.entries| ==> r.entries[i].key != r.entries[j].key
  }

  /** `list_politicians`. */
  function Keys(r: Registry): (ks: seq<string>)
    ensures |ks| == |r.entries|
    ensures forall i :: 0 <= i < |ks| ==> ks[i] == r.entries[i].key
  {
    seq(|r.entries|, i requires 0 <= i < |r.entries| => r.entries[i].key)
  }

  /** The position of `key`, if present. */
  function Position(es: seq<Entry>, key: string): (p: Option<nat>)
    ensures p.Some? ==> p.value < |es| && es[p.value].key == key
    ensures p.None? <==> forall i :: 0 <= i < |es| ==> es[i].key != key
    decreases |es|
  {
    if |es| == 0 then None
    else if es[|es| - 1].key == key then Some(|es| - 1)
    else Position(es[..|es| - 1], key)
  }

  /** `get_politician`: the configuration stored under `name`, if any. */
  function Get(r: Registry, name: string): (c: Option<Config>)
    requires Valid(r)
    ensures c.None? <==> forall i :: 0 <= i < |r.entries| ==> r.entries[i].key != name
    ensures c.Some? ==> exists i :: 0 <= i < |r.entries| && r.entries[i] == Entry(name, c.value)
  {
    match Position(r.entries, name)
    case None => None
    case Some(p) => Some(r.entries[p].config)
  }

  /** In a registry with distinct keys, the entry with a key is what `Get`
      returns for it. */
  lemma GetFinds(r: Registry, i: nat)
    requires Valid(r) && i < |r.entries|
    ensures Get(r, r.entries[i].key) == Some(r.entries[i].config)
  {
    var p := Position(r.entries, r.entries[i].key).value;
    assert p == i;
  }

  /** `add_politician`: the configuration is stored under its name; an
      existing entry of that name is replaced where it stands, otherwise
      the entry goes last. */
  function Add(r: Registry, c: Config): (r': Registry)
    requires Valid(r)
    ensures Valid(r')
    ensures Get(r', c.name) == Some(c)
    ensures forall k :: k != c.name ==> Get(r', k) == Get(r, k)
    ensures Keys(r') == if Get(r, c.name).Some? then Keys(r) else Keys(r) + [c.name]
  {
    match Position(r.entries, c.name)
    case Some(p) =>
      var r' := Registry(r.entries[p := Entry(c.name, c)]);
      AddFacts(r, r', p, c);
      r'
    case None =>
      var r' := Registry(r.entries + [Entry(c.name, c)]);
      AppendFacts(r, r', c);
      r'
  }

  lemma AddFacts(r: Registry, r': Registry, p: nat, c: Config)
    requires Valid(r) && p < |r.entries| && r.entries[p].key == c.name
    requires r' == Registry(r.entries[p := Entry(c.name, c)])
    ensures Valid(r')
    ensures Get(r', c.name) == Some(c)
    ensures forall k :: k != c.name ==> Get(r', k) == Get(r, k)
    ensures Keys(r') == Keys(r)
  {
    ReplaceFacts(r, r', p, c.name, c);
  }

  lemma AppendFacts(r: Registry, r': Registry, c: Config)
    requires Valid(r) && forall i :: 0 <= i < |r.entries| ==> r.entries[i].key != c.name
    requires r' == Registry(r.entries + [Entry(c.name, c)])
    ensures Valid(r')
    ensures Get(r', c.name) == Some(c)
    ensures forall k :: k != c.name ==> Get(r', k) == Get(r, k)
    ensures Keys(r') == Keys(r) + [c.name]
  {
    GetFinds(r', |r.entries|);
    forall k | k != c.name
      ensures Get(r', k) == Get(r, k)
    {
      forall e: Entry | e.key == k
        ensures e in r.entries <==> e in r'.entries
      {
        assert e in r'.entries <==> e in r.entries || e == Entry(c.name, c);
      }
      SameEntriesSameLookup(r, r', k);
    }
  }

  /** Two registries holding the same entries with key `k` give the same
      lookup for `k`. */
  lemma SameEntriesSameLookup(r: Registry, r': Registry, k: string)
    requires Valid(r) && Valid(r')
    requires forall e: Entry :: e.key == k ==> (e in r.entries <==> e in r'.entries)
    ensures Get(r', k) == Get(r, k)
  {
    match Get(r, k)
    case None =>
      forall j | 0 <= j < |r'.entries|
        ensures r'.entries[j].key != k
      {
        var e := r'.entries[j];
        assert e in r'.entries;
        assert e.key == k ==> e in r.entries;
      }
    case Some(c) =>
      assert Entry(k, c) in r.entries;
      var j :| 0 <= j < |r'.entries| && r'.entries[j] == Entry(k, c);
      GetFinds(r', j);
  }

  /** `remove_politician`: whether the name was present, and the registry
      without it. */
  function Remove(r: Registry, name: string): (res: (Registry, bool))
    requires Valid(r)
    ensures res.1 <==> Get(r, name).Some?
    ensures Valid(res.0)
    ensures Get(res.0, name).None?
    ensures forall k :: k != name ==> Get(res.0, k) == Get(r, k)
    ensures !res.1 ==> res.0 == r
    ensures res.1 ==> exists p :: (0 <= p < |Keys(r)| && Keys(r)[p] == name
      && Keys(res.0) == Keys(r)[..p] + Keys(r)[p + 1..])
  {
    match Position(r.entries, name)
    case None => (r, false)
    case Some(p) =>
      var r' := Registry(r.entries[..p] + r.entries[p + 1..]);
      RemoveFacts(r, r', p, name);
      (r', true)
  }

  lemma RemoveFacts(r: Registry, r': Registry, p: nat, name: string)
    requires Valid(r) && p < |r.entries| && r.entries[p].key == name
    requires r' == Registry(r.entries[..p] + r.entries[p + 1..])
    ensures Valid(r')
    ensures Get(r', name).None?
    ensures forall k :: k != name ==> Get(r', k) == Get(r, k)
    ensures Keys(r') == Keys(r)[..p] + Keys(r)[p + 1..]
  {
    var ks := Keys(r)[..p] + Keys(r)[p + 1..];
    assert forall j :: 0 <= j < |ks| ==> ks[j] == r'.entries[j].key;
    forall k | k != name
      ensures Get(r', k) == Get(r, k)
    {
      RemovalKeepsOthers(r.entries, p, k);
      SameEntriesSameLookup(r, r', k);
    }
  }

  /** Cutting out the entry at `p` keeps every entry with another key. */
  lemma RemovalKeepsOthers(es: seq<Entry>, p: nat, k: string)
    requires p < |es| && es[p].key != k
    ensures forall e: Entry :: e.key == k ==> (e in es <==> e in es[..p] + es[p + 1..])
  {
    var cut := es[..p] + es[p + 1..];
    assert forall j :: 0 <= j < |cut| ==> cut[j] == (if j < p then es[j] else es[j + 1]);
    forall e: Entry | e.key == k
      ensures e in es <==> e in cut
    {
      if e in es {
        var i :| 0 <= i < |es| && es[i] == e;
        assert cut[if i < p then i else i - 1] == e;
      }
    }
  }

  /** The configurations in insertion order: `self.politicians.values()`. */
  function Values(r: Registry): (cs: seq<Config>)
    ensures |cs| == |r.entries|
    ensures forall i :: 0 <= i < |cs| ==> cs[i] == r.entries[i].config
  {
    seq(|r.entries|, i requires 0 <= i < |r.entries| => r.entries[i].config)
  }

  /** The active configurations among `cs`, in order. */
  function ActiveOf(cs: seq<Config>): (act: seq<Config>)
    ensures forall c :: c in act <==> c in cs && c.status == Active
    ensures |act| <= |cs|
    decreases |cs|
  {
    if |cs| == 0 then []
    else
      var rest := ActiveOf(cs[..|cs| - 1]);
      var last := cs[|cs| - 1];
      assert cs == cs[..|cs| - 1] + [last];
      if last.status == Active then rest + [last] else rest
  }

  /** `act` lists the active members of `cs`, each once, in their order in
      `cs`: `idx` gives the position in `cs` of each member of `act`, rises
      strictly, and holds exactly the positions of active configurations. */
  predicate SelectsActive(cs: seq<Config>, act: seq<Config>, idx: seq<nat>) {
    && |idx| == |act|
    && (forall k :: 0 <= k < |idx| ==> idx[k] < |cs| && act[k] == cs[idx[k]])
    && (forall k, l :: 0 <= k < l < |idx| ==> idx[k] < idx[l])
    && (forall j :: 0 <= j < |cs| ==> (cs[j].status == Active <==> j in idx))
  }

  /** The filter keeps order and multiplicity: its result is the active
      configurations picked out of `cs` left to right. */
  lemma {:induction false} ActiveOfInOrder(cs: seq<Config>)
    ensures exists idx: seq<nat> :: SelectsActive(cs, ActiveOf(cs), idx)
    decreases |cs|
  {
    if |cs| > 0 {
      var init := cs[..|cs| - 1];
      var last := cs[|cs| - 1];
      ActiveOfInOrder(init);
      var idx: seq<nat> :| SelectsActive(init, ActiveOf(init), idx);
      assert cs == init + [last];
      if last.status == Active {
        assert ActiveOf(cs) == ActiveOf(init) + [last];
        SelectionGrows(init, ActiveOf(init), idx, last);
        assert SelectsActive(cs, ActiveOf(cs), idx + [|init|]);
      } else {
        assert ActiveOf(cs) == ActiveOf(init);
        SelectionSkips(init, ActiveOf(init), idx, last);
      }
    } else {
      assert SelectsActive(cs, ActiveOf(cs), []);
    }
  }

  /** An active configuration appended to `cs` is appended to the selection. */
  lemma SelectionGrows(cs: seq<Config>, act: seq<Config>, idx: seq<nat>, last: Config)
    requires SelectsActive(cs, act, idx) && last.status == Active
    ensures SelectsActive(cs + [last], act + [last], idx + [|cs|])
  {
    var cs', act', idx' := cs + [last], act + [last], idx + [|cs|];
    forall k | 0 <= k < |idx'|
      ensures idx'[k] < |cs'| && act'[k] == cs'[idx'[k]]
    {
      if k < |idx| {
        assert idx'[k] == idx[k] && act'[k] == act[k];
      }
    }
    forall k, l | 0 <= k < l < |idx'|
      ensures idx'[k] < idx'[l]
    {
      assert idx'[k] == idx[k] < |cs|;
    }
    forall j | 0 <= j < |cs'|
      ensures cs'[j].status == Active <==> j in idx'
    {
      if j < |cs| {
        assert cs'[j] == cs[j];
        assert j in idx' <==> j in idx;
      }
    }
  }

  /** An inactive configuration appended to `cs` leaves the selection as it is. */
  lemma SelectionSkips(cs: seq<Config>, act: seq<Config>, idx: seq<nat>, last: Config)
    requires SelectsActive(cs, act, idx) && last.status != Active
    ensures SelectsActive(cs + [last], act, idx)
  {
    var cs' := cs + [last];
    assert |cs| !in idx;
    forall j | 0 <= j < |cs'|
      ensures cs'[j].status == Active <==> j in idx
    {
      if j < |cs| {
        assert cs'[j] == cs[j];
      }
    }
  }

  /** `get_active_politicians`: exactly the configurations whose status is
      active, in insertion order. */
  function GetActive(r: Registry): (act: seq<Config>)
    ensures forall c :: c in act <==> c in Values(r) && c.status == Active
    ensures exists idx: seq<nat> :: SelectsActive(Values(r), act, idx)
  {
    ActiveOfInOrder(Values(r));
    ActiveOf(Values(r))
  }

  /** `get_politician_by_search_name`: the first configuration, in insertion
      order, whose search name is `searchName`. */
  function FirstBySearchName(cs: seq<Config>, searchName: string): (found: Option<nat>)
    ensures found.Some? ==> found.value < |cs| && cs[found.value].searchName == searchName
    ensures found.Some? ==> forall j :: 0 <= j < found.value ==> cs[j].searchName != searchName
    ensures found.None? <==> forall j :: 0 <= j < |cs| ==> cs[j].searchName != searchName
    decreases |cs|
  {
    if |cs| == 0 then None
    else if cs[0].searchName == searchName then Some(0)
    else
      match FirstBySearchName(cs[1..], searchName)
      case None => None
      case Some(j) => Some(j + 1)
  }

  function GetBySearchName(r: Registry, searchName: string): (c: Option<Config>)
    ensures c.None? <==> forall i :: 0 <= i < |r.entries| ==> r.entries[i].config.searchName != searchName
    ensures c.Some? ==> c.value.searchName == searchName
    ensures c.Some? ==> exists i :: (0 <= i < |r.entries| && r.entries[i].config == c.value
      && forall j :: 0 <= j < i ==> r.entries[j].config.searchName != searchName)
  {
    var cs := Values(r);
    match FirstBySearchName(cs, searchName)
    case None => None
    case Some(i) => Some(cs[i])
  }

  // ---------------------------------------------------------------------
  // Updates
  // ---------------------------------------------------------------------

  /** One keyword argument of `update_politician`: a string for some field
      (`status` included, which is then converted), or a status given as the
      enum itself. */
  datatype Assignment = SetText(key: string, value: string) | SetStatus(status: Status)

  /** The configuration with one string field replaced. */
  function WithText(c: Config, key: string, v: string): (c': Config)
    requires IsTextField(key)
    ensures TextField(c', key) == Some(v)
    ensures forall k :: k != key ==> TextField(c', k) == TextField(c, k)
    ensures c'.status == c.status
  {
    if key == "name" then c.(name := v)
    else if key == "full_name" then c.(fullName := v)
    else if key == "search_name" then c.(searchName := v)
    else if key == "discord_webhook" then c.(discordWebhook := v)
    else if key == "channel_name" then c.(channelName := v)
    else if key == "description" then c.(description := v)
    else if key == "party" then c.(party := v)
    else if key == "state" then c.(state := v)
    else c.(chamber := v)
  }

  /** One `setattr`: a key that names no field is skipped; a string status
      is converted first, and an unknown value raises. */
  function Assign(c: Config, a: Assignment): (r: Result<Config, string>)
    ensures a.SetText? && !(a.key in AllFields) ==> r == Success(c)
    ensures a.SetText? && a.key == "status" ==>
      (r.Success? <==> StatusFromValue(a.value).Success?)
    ensures r.Success? && a.SetText? && a.key == "status" ==> r.value.status.Value() == a.value
    ensures r.Success? && a.SetStatus? ==> r.value.status == a.status
    ensures a.SetText? && IsTextField(a.key) ==> r == Success(WithText(c, a.key, a.value))
    ensures r.Success? && (a.SetStatus? || a.key == "status") ==> r.value == c.(status := r.value.status)
  {
    match a
    case SetStatus(s) => Success(c.(status := s))
    case SetText(key, v) =>
      if key == "status" then
        match StatusFromValue(v)
        case Success(s) => Success(c.(status := s))
        case Failure(e) => Failure(e)
      else if IsTextField(key) then Success(WithText(c, key, v))
      else Success(c)
  }

  /** The keyword arguments applied in order. The configuration is changed
      in place, so the assignments made before one that raises stay made:
      the result carries the configuration as far as it got and the error,
      if any. */
  function AssignAll(c: Config, ups: seq<Assignment>): (res: (Config, Option<string>))
    ensures res.1.None? <==> forall k :: 0 <= k < |ups| && ups[k].SetText? && ups[k].key == "status" ==>
      StatusFromValue(ups[k].value).Success?
    decreases |ups|
  {
    if |ups| == 0 then (c, None)
    else
      match Assign(c, ups[0])
      case Failure(e) => (c, Some(e))
      case Success(c1) => AssignAll(c1, ups[1..])
  }

  /** A string field that no assignment names keeps its value. */
  lemma {:induction false} UnnamedFieldKept(c: Config, ups: seq<Assignment>, key: string)
    requires IsTextField(key)
    requires forall k :: 0 <= k < |ups| ==> !(ups[k].SetText? && ups[k].key == key)
    ensures TextField(AssignAll(c, ups).0, key) == TextField(c, key)
    decreases |ups|
  {
    if |ups| > 0 {
      var r := Assign(c, ups[0]);
      if r.Success? {
        assert TextField(r.value, key) == TextField(c, key) by {
          if ups[0].SetText? && IsTextField(ups[0].key) {
            assert ups[0].key != key;
          }
        }
        UnnamedFieldKept(r.value, ups[1..], key);
        assert forall k :: 0 <= k < |ups[1..]| ==> ups[1..][k] == ups[k + 1];
      }
    }
  }

  /** When no assignment raises, a string field holds the value of the last
      assignment that names it. */
  lemma {:induction false} LastTextWins(c: Config, ups: seq<Assignment>, key: string, k: nat)
    requires IsTextField(key) && k < |ups| && ups[k].SetText? && ups[k].key == key
    requires forall m :: k < m < |ups| ==> !(ups[m].SetText? && ups[m].key == key)
    requires AssignAll(c, ups).1.None?
    ensures TextField(AssignAll(c, ups).0, key) == Some(ups[k].value)
    decreases k
  {
    var r := Assign(c, ups[0]);
    assert r.Success?;
    assert forall m :: 0 <= m < |ups[1..]| ==> ups[1..][m] == ups[m + 1];
    if k == 0 {
      UnnamedFieldKept(r.value, ups[1..], key);
    } else {
      LastTextWins(r.value, ups[1..], key, k - 1);
    }
  }

  /** When no assignment raises, the status is the one the last status
      assignment gives. */
  lemma {:induction false} LastStatusWins(c: Config, ups: seq<Assignment>, k: nat, s: Status)
    requires k < |ups| && (ups[k] == SetStatus(s) || ups[k] == SetText("status", s.Value()))
    requires forall m :: k < m < |ups| ==> !ups[m].SetStatus? && ups[m].key != "status"
    requires AssignAll(c, ups).1.None?
    ensures AssignAll(c, ups).0.status == s
    decreases k
  {
    var r := Assign(c, ups[0]);
    assert r.Success?;
    assert forall m :: 0 <= m < |ups[1..]| ==> ups[1..][m] == ups[m + 1];
    if k == 0 {
      StatusRoundTrip(s);
      StatusKeptUnlessAssigned(r.value, ups[1..]);
    } else {
      LastStatusWins(r.value, ups[1..], k - 1, s);
    }
  }

  /** Without a status assignment the status is kept. */
  lemma {:induction false} StatusKeptUnlessAssigned(c: Config, ups: seq<Assignment>)
    requires forall k :: 0 <= k < |ups| ==> !ups[k].SetStatus? && ups[k].key != "status"
    ensures AssignAll(c, ups).0.status == c.status
    ensures AssignAll(c, ups).1.None?
    decreases |ups|
  {
    if |ups| > 0 {
      var r := Assign(c, ups[0]);
      assert r.Success? && r.value.status == c.status;
      StatusKeptUnlessAssigned(r.value, ups[1..]);
      assert forall k :: 0 <= k < |ups[1..]| ==> ups[1..][k] == ups[k + 1];
    }
  }

  /** `update_politician`: `False` with nothing changed for an unknown name;
      otherwise the assignments applied to that entry's configuration, which
      keeps its key even when its `name` field is reassigned, and `True`
      unless a status string was refused, in which case the error
      propagates and the assignments before it remain. */
  function Update(r: Registry, name: string, ups: seq<Assignment>): (res: (Registry, Result<bool, string>))
    requires Valid(r)
    ensures Get(r, name).None? ==> res == (r, Success(false))
    ensures Keys(res.0) == Keys(r)
    ensures Valid(res.0)
    ensures forall k :: k != name ==> Get(res.0, k) == Get(r, k)
    ensures Get(r, name).Some? ==>
      && Get(res.0, name) == Some(AssignAll(Get(r, name).value, ups).0)
      && (res.1.Success? <==> AssignAll(Get(r, name).value, ups).1.None?)
      && (res.1.Success? ==> res.1.value)
  {
    match Position(r.entries, name)
    case None => (r, Success(false))
    case Some(p) =>
      var (c', err) := AssignAll(r.entries[p].config, ups);
      var r' := Registry(r.entries[p := Entry(name, c')]);
      GetFinds(r, p);
      ReplaceFacts(r, r', p, name, c');
      (r', if err.None? then Success(true) else Failure(err.value))
  }

  /** A successful update of a stored politician leaves each text field
      holding the value of the last assignment that names it. */
  lemma UpdateSetsText(r: Registry, name: string, ups: seq<Assignment>, key: string, k: nat)
    requires Valid(r) && Get(r, name).Some?
    requires IsTextField(key) && k < |ups| && ups[k].SetText? && ups[k].key == key
    requires forall m :: k < m < |ups| ==> !(ups[m].SetText? && ups[m].key == key)
    requires Update(r, name, ups).1.Success?
    ensures Get(Update(r, name, ups).0, name).Some?
    ensures TextField(Get(Update(r, name, ups).0, name).value, key) == Some(ups[k].value)
  {
    LastTextWins(Get(r, name).value, ups, key, k);
  }

  lemma ReplaceFacts(r: Registry, r': Registry, p: nat, name: string, c: Config)
    requires Valid(r) && p < |r.entries| && r.entries[p].key == name
    requires r' == Registry(r.entries[p := Entry(name, c)])
    ensures Valid(r') && Keys(r') == Keys(r)
    ensures Get(r', name) == Some(c)
    ensures forall k :: k != name ==> Get(r', k) == Get(r, k)
  {
    GetFinds(r', p);
    forall k | k != name
      ensures Get(r', k) == Get(r, k)
    {
      forall e: Entry | e.key == k
        ensures e in r.entries <==> e in r'.entries
      {
        if e in r.entries {
          var i :| 0 <= i < |r.entries| && r.entries[i] == e;
          assert r'.entries[i] == e;
        }
        if e in r'.entries {
          var i :| 0 <= i < |r'.entries| && r'.entries[i] == e;
          assert r.entries[i] == e;
        }
      }
      SameEntriesSameLookup(r, r', k);
    }
  }


  // ---------------------------------------------------------------------
  // The default configuration
  // ---------------------------------------------------------------------

  const PelosiConfig: Config := Config(
    "pelosi", "Nancy Pelosi", "Pelosi, Nancy", "", "#pelosi-trades", Active,
    "Speaker Emerita, California", "Democratic", "CA", "House")

  /** `_create_default_config`: the Pelosi entry stored under "pelosi",
      next to whatever the table already holds. */
  function CreateDefaultConfig(r: Registry): (r': Registry)
    requires Valid(r)
    ensures Valid(r')
    ensures Get(r', "pelosi") == Some(PelosiConfig)
    ensures forall k :: k != "pelosi" ==> Get(r', k) == Get(r, k)
  {
    Add(r, PelosiConfig)
  }

  /** On an empty table, the default holds exactly one entry, "pelosi",
      and it is active. */
  lemma DefaultIsPelosiAlone()
    ensures Keys(CreateDefaultConfig(Registry([]))) == ["pelosi"]
    ensures GetActive(CreateDefaultConfig(Registry([]))) == [PelosiConfig]
  {
    var r := CreateDefaultConfig(Registry([]));
    assert r == Registry([Entry("pelosi", PelosiConfig)]);
    assert Values(r) == [PelosiConfig];
    assert ActiveOf([PelosiConfig]) == [PelosiConfig] by {
      assert [PelosiConfig][..0] == [];
    }
  }
}
