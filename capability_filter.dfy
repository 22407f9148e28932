/** The capability filter of read_write.go: the filter modes, and the walk
    over the top-level keys of `result.capabilities` that forces selected
    `...Provider` entries to `false`. */
module CapabilityFilter {
  import opened JsonTree
  import Utils

  /** `filterMode`: keep only the listed providers, drop the listed
      providers, or leave everything alone. */
  datatype FilterMode = EnableFilter | DisableFilter | NoFilter

  /** The marker that identifies a filterable capability key. */
  const Suffix: string := "Provider"

  /** `strings.HasSuffix(k, "Provider")`: a key that has the marker is a
      bare name followed by it. */
  predicate HasSuffix(k: string): (b: bool)
    ensures b ==> |Suffix| <= |k| && k[..|k| - |Suffix|] + Suffix == k
  {
    |Suffix| <= |k| && k[|k| - |Suffix|..] == Suffix
  }

  /** `strings.TrimSuffix(k, "Provider")`: the bare provider name. */
  function TrimSuffix(k: string): (name: string)
    ensures HasSuffix(k) ==> name + Suffix == k
    ensures !HasSuffix(k) ==> name == k
  {
    if HasSuffix(k) then k[..|k| - |Suffix|] else k
  }

  /** Distinct capability keys have distinct bare names. */
  lemma TrimSuffixInjective(k1: string, k2: string)
    requires HasSuffix(k1) && HasSuffix(k2)
    requires TrimSuffix(k1) == TrimSuffix(k2)
    ensures k1 == k2
  {
    assert k1 == TrimSuffix(k1) + Suffix;
    assert k2 == TrimSuffix(k2) + Suffix;
  }

  /** The condition under which a provider's entry is overwritten with
      `false`, given whether its bare name is on the provider list. */
  predicate Disables(mode: FilterMode, contains: bool): (b: bool)
    ensures b <==> mode != NoFilter && (contains <==> mode == DisableFilter)
  {
    (mode == DisableFilter && contains) || (mode == EnableFilter && !contains)
  }

  /** The capabilities map after filtering: each capability key the
      decision selects holds `false`, every other entry is as it was. */
  function Filtered(caps: map<string, Json>, mode: FilterMode, providers: seq<string>): (r: map<string, Json>)
    ensures r.Keys == caps.Keys
  {
    map k | k in caps ::
      if HasSuffix(k) && Disables(mode, TrimSuffix(k) in providers) then Bool(false) else caps[k]
  }

  /** The filtered entry of one key. */
  lemma FilteredAt(caps: map<string, Json>, mode: FilterMode, providers: seq<string>, k: string)
    requires k in caps
    ensures Filtered(caps, mode, providers)[k] ==
      if HasSuffix(k) && Disables(mode, TrimSuffix(k) in providers) then Bool(false) else caps[k]
  {
  }

  /** Filtering leaves every entry that is not a capability key as it
      was; a capability key is set to `false` exactly when the mode is
      disable and its bare name is listed, or the mode is enable and it is
      not. */
  lemma FilterDecisionTable(caps: map<string, Json>, mode: FilterMode, providers: seq<string>, k: string)
    requires k in caps
    ensures !HasSuffix(k) ==> Filtered(caps, mode, providers)[k] == caps[k]
    ensures HasSuffix(k) && mode == EnableFilter ==>
      Filtered(caps, mode, providers)[k] == if TrimSuffix(k) in providers then caps[k] else Bool(false)
    ensures HasSuffix(k) && mode == DisableFilter ==>
      Filtered(caps, mode, providers)[k] == if TrimSuffix(k) in providers then Bool(false) else caps[k]
  {
  }

  /** Filtering keeps the key set, and no filter changes nothing. */
  lemma FilterKeepsKeys(caps: map<string, Json>, mode: FilterMode, providers: seq<string>)
    ensures Filtered(caps, mode, providers).Keys == caps.Keys
    ensures mode == NoFilter ==> Filtered(caps, mode, providers) == caps
  {
  }

  /** The capability keys among `keys`. */
  function ProviderKeys(keys: set<string>): set<string> {
    set k | k in keys && HasSuffix(k)
  }

  /** The bare names recorded as enabled for the keys `keys`. */
  function EnabledNames(keys: set<string>, mode: FilterMode, providers: seq<string>): set<string> {
    set k | k in keys && HasSuffix(k) && !Disables(mode, TrimSuffix(k) in providers) :: TrimSuffix(k)
  }

  /** The bare names recorded as disabled for the keys `keys`. */
  function DisabledNames(keys: set<string>, mode: FilterMode, providers: seq<string>): set<string> {
    set k | k in keys && HasSuffix(k) && Disables(mode, TrimSuffix(k) in providers) :: TrimSuffix(k)
  }

  /** The bare names of a set of capability keys. */
  function Names(keys: set<string>): set<string> {
    set k | k in keys && HasSuffix(k) :: TrimSuffix(k)
  }

  /** A capability key outside `keys` has a bare name outside `Names(keys)`. */
  lemma NameFresh(keys: set<string>, k: string)
    requires k !in keys && HasSuffix(k)
    ensures TrimSuffix(k) !in Names(keys)
  {
    forall y | y in keys && HasSuffix(y) ensures TrimSuffix(y) != TrimSuffix(k) {
      if TrimSuffix(y) == TrimSuffix(k) {
        TrimSuffixInjective(k, y);
      }
    }
  }

  /** Every capability key contributes its bare name to exactly one of the
      two lists. */
  lemma NamesPartition(keys: set<string>, mode: FilterMode, providers: seq<string>)
    ensures EnabledNames(keys, mode, providers) !! DisabledNames(keys, mode, providers)
    ensures EnabledNames(keys, mode, providers) + DisabledNames(keys, mode, providers) == Names(keys)
  {
    var en := EnabledNames(keys, mode, providers);
    var dis := DisabledNames(keys, mode, providers);
    forall k1, k2 | k1 in keys && k2 in keys && HasSuffix(k1) && HasSuffix(k2) && TrimSuffix(k1) == TrimSuffix(k2)
      ensures k1 == k2
    {
      TrimSuffixInjective(k1, k2);
    }
    assert en + dis == Names(keys);
  }

  /** Visiting one more key adds it to the capability keys exactly when it
      is one. */
  lemma ProviderKeysStep(done: set<string>, k: string)
    ensures ProviderKeys(done + {k}) == if HasSuffix(k) then ProviderKeys(done) + {k} else ProviderKeys(done)
  {
  }

  /** `enabled` and `disabled` hold, as multisets, exactly the enabled and
      the disabled bare names of the keys `done`, and together they are as
      long as there are capability keys among `done`. */
  predicate Recorded(done: set<string>, mode: FilterMode, providers: seq<string>,
                     enabled: seq<string>, disabled: seq<string>)
  {
    && multiset(enabled) == multiset(EnabledNames(done, mode, providers))
    && multiset(disabled) == multiset(DisabledNames(done, mode, providers))
    && |enabled| + |disabled| == |ProviderKeys(done)|
  }

  /** Walking one more key that is not a capability key records nothing. */
  lemma RecordOther(done: set<string>, k: string, mode: FilterMode, providers: seq<string>,
                    enabled: seq<string>, disabled: seq<string>)
    requires !HasSuffix(k)
    requires Recorded(done, mode, providers, enabled, disabled)
    ensures Recorded(done + {k}, mode, providers, enabled, disabled)
  {
    assert EnabledNames(done + {k}, mode, providers) == EnabledNames(done, mode, providers);
    assert DisabledNames(done + {k}, mode, providers) == DisabledNames(done, mode, providers);
    ProviderKeysStep(done, k);
  }

  /** Walking one more capability key adds its bare name, new to the
      enabled names, exactly when the decision keeps the key. */
  lemma EnabledStep(done: set<string>, k: string, mode: FilterMode, providers: seq<string>)
    requires k !in done && HasSuffix(k)
    ensures TrimSuffix(k) !in EnabledNames(done, mode, providers)
    ensures EnabledNames(done + {k}, mode, providers) ==
      if Disables(mode, TrimSuffix(k) in providers) then EnabledNames(done, mode, providers)
      else EnabledNames(done, mode, providers) + {TrimSuffix(k)}
  {
    NameFresh(done, k);
    var n := TrimSuffix(k);
    var d := Disables(mode, n in providers);
    var en, en' := EnabledNames(done, mode, providers), EnabledNames(done + {k}, mode, providers);
    assert en <= Names(done);
    forall m | m in en' ensures m in en || (!d && m == n) {
      var j :| j in done + {k} && HasSuffix(j) && !Disables(mode, TrimSuffix(j) in providers) && TrimSuffix(j) == m;
      if j != k { assert m in en; }
    }
    assert !d ==> n in en';
  }

  /** Walking one more capability key adds its bare name, new to the
      disabled names, exactly when the decision disables the key. */
  lemma DisabledStep(done: set<string>, k: string, mode: FilterMode, providers: seq<string>)
    requires k !in done && HasSuffix(k)
    ensures TrimSuffix(k) !in DisabledNames(done, mode, providers)
    ensures DisabledNames(done + {k}, mode, providers) ==
      if Disables(mode, TrimSuffix(k) in providers) then DisabledNames(done, mode, providers) + {TrimSuffix(k)}
      else DisabledNames(done, mode, providers)
  {
    NameFresh(done, k);
    var n := TrimSuffix(k);
    var d := Disables(mode, n in providers);
    var dis, dis' := DisabledNames(done, mode, providers), DisabledNames(done + {k}, mode, providers);
    assert dis <= Names(done);
    forall m | m in dis' ensures m in dis || (d && m == n) {
      var j :| j in done + {k} && HasSuffix(j) && Disables(mode, TrimSuffix(j) in providers) && TrimSuffix(j) == m;
      if j != k { assert m in dis; }
    }
    assert d ==> n in dis';
  }

  /** Walking one more capability key that the decision disables and
      appending its bare name to `disabled` keeps the lists recorded. */
  lemma RecordDisabled(done: set<string>, k: string, mode: FilterMode, providers: seq<string>,
                       enabled: seq<string>, disabled: seq<string>)
    requires k !in done && HasSuffix(k) && Disables(mode, TrimSuffix(k) in providers)
    requires Recorded(done, mode, providers, enabled, disabled)
    ensures Recorded(done + {k}, mode, providers, enabled, disabled + [TrimSuffix(k)])
  {
    EnabledStep(done, k, mode, providers);
    DisabledStep(done, k, mode, providers);
    var n, dis := TrimSuffix(k), DisabledNames(done, mode, providers);
    ProviderKeysStep(done, k);
    assert multiset(dis + {n}) == multiset(dis) + multiset{n};
    assert multiset(disabled + [n]) == multiset(disabled) + multiset{n};
  }

  /** Walking one more capability key that the decision keeps and
      appending its bare name to `enabled` keeps the lists recorded. */
  lemma RecordEnabled(done: set<string>, k: string, mode: FilterMode, providers: seq<string>,
                      enabled: seq<string>, disabled: seq<string>)
    requires k !in done && HasSuffix(k) && !Disables(mode, TrimSuffix(k) in providers)
    requires Recorded(done, mode, providers, enabled, disabled)
    ensures Recorded(done + {k}, mode, providers, enabled + [TrimSuffix(k)], disabled)
  {
    EnabledStep(done, k, mode, providers);
    DisabledStep(done, k, mode, providers);
    var n, en := TrimSuffix(k), EnabledNames(done, mode, providers);
    ProviderKeysStep(done, k);
    assert multiset(en + {n}) == multiset(en) + multiset{n};
    assert multiset(enabled + [n]) == multiset(enabled) + multiset{n};
  }

  /** `filtered` holds the filtered entry of every key already walked and
      the original entry of every key in `todo`. */
  predicate WalkedEntries(caps: map<string, Json>, todo: set<string>, mode: FilterMode, providers: seq<string>,
                          filtered: map<string, Json>)
  {
    && todo <= caps.Keys
    && filtered.Keys == caps.Keys
    && forall k :: k in caps ==> filtered[k] == if k in todo then caps[k] else Filtered(caps, mode, providers)[k]
  }

  /** Walking key `k` and storing its filtered entry, when that differs
      from the original, keeps the entries walked. */
  lemma WalkEntry(caps: map<string, Json>, todo: set<string>, mode: FilterMode, providers: seq<string>,
                  filtered: map<string, Json>, k: string)
    requires k in todo
    requires WalkedEntries(caps, todo, mode, providers, filtered)
    ensures Filtered(caps, mode, providers)[k] == caps[k] ==>
      WalkedEntries(caps, todo - {k}, mode, providers, filtered)
    ensures WalkedEntries(caps, todo - {k}, mode, providers, filtered[k := Filtered(caps, mode, providers)[k]])
  {
    var f, rest := Filtered(caps, mode, providers), todo - {k};
    if f[k] == caps[k] {
      forall j | j in caps ensures filtered[j] == if j in rest then caps[j] else f[j] {
      }
    }
    var walked := filtered[k := f[k]];
    forall j | j in caps ensures walked[j] == if j in rest then caps[j] else f[j] {
    }
    assert walked.Keys == caps.Keys;
  }

  /** The state of the walk over the capability keys once the keys outside
      `todo` have been visited: their entries filtered, their bare names
      recorded. */
  predicate Walked(caps: map<string, Json>, todo: set<string>, mode: FilterMode, providers: seq<string>,
                   filtered: map<string, Json>, enabled: seq<string>, disabled: seq<string>)
  {
    && WalkedEntries(caps, todo, mode, providers, filtered)
    && Recorded(caps.Keys - todo, mode, providers, enabled, disabled)
  }

  /** Visiting a key that is not a capability key changes nothing. */
  lemma StepOther(caps: map<string, Json>, todo: set<string>, mode: FilterMode, providers: seq<string>,
                  filtered: map<string, Json>, enabled: seq<string>, disabled: seq<string>, k: string)
    requires k in todo && !HasSuffix(k)
    requires Walked(caps, todo, mode, providers, filtered, enabled, disabled)
    ensures Walked(caps, todo - {k}, mode, providers, filtered, enabled, disabled)
  {
    FilteredAt(caps, mode, providers, k);
    WalkEntry(caps, todo, mode, providers, filtered, k);
    assert caps.Keys - (todo - {k}) == (caps.Keys - todo) + {k};
    RecordOther(caps.Keys - todo, k, mode, providers, enabled, disabled);
  }

  /** Visiting a capability key to disable sets it to `false` and records
      its bare name as disabled. */
  lemma StepDisabled(caps: map<string, Json>, todo: set<string>, mode: FilterMode, providers: seq<string>,
                     filtered: map<string, Json>, enabled: seq<string>, disabled: seq<string>, k: string)
    requires k in todo && HasSuffix(k) && Disables(mode, TrimSuffix(k) in providers)
    requires Walked(caps, todo, mode, providers, filtered, enabled, disabled)
    ensures Walked(caps, todo - {k}, mode, providers, filtered[k := Bool(false)], enabled, disabled + [TrimSuffix(k)])
  {
    FilteredAt(caps, mode, providers, k);
    WalkEntry(caps, todo, mode, providers, filtered, k);
    assert caps.Keys - (todo - {k}) == (caps.Keys - todo) + {k};
    RecordDisabled(caps.Keys - todo, k, mode, providers, enabled, disabled);
  }

  /** Visiting a capability key to keep leaves it as it is and records its
      bare name as enabled. */
  lemma StepEnabled(caps: map<string, Json>, todo: set<string>, mode: FilterMode, providers: seq<string>,
                    filtered: map<string, Json>, enabled: seq<string>, disabled: seq<string>, k: string)
    requires k in todo && HasSuffix(k) && !Disables(mode, TrimSuffix(k) in providers)
    requires Walked(caps, todo, mode, providers, filtered, enabled, disabled)
    ensures Walked(caps, todo - {k}, mode, providers, filtered, enabled + [TrimSuffix(k)], disabled)
  {
    FilteredAt(caps, mode, providers, k);
    WalkEntry(caps, todo, mode, providers, filtered, k);
    assert caps.Keys - (todo - {k}) == (caps.Keys - todo) + {k};
    RecordEnabled(caps.Keys - todo, k, mode, providers, enabled, disabled);
  }

  /** Once every key is visited, the walk has produced the filtered map and
      the two name lists. */
  lemma WalkDone(caps: map<string, Json>, mode: FilterMode, providers: seq<string>,
                 filtered: map<string, Json>, enabled: seq<string>, disabled: seq<string>)
    requires Walked(caps, {}, mode, providers, filtered, enabled, disabled)
    ensures filtered == Filtered(caps, mode, providers)
    ensures multiset(enabled) == multiset(EnabledNames(caps.Keys, mode, providers))
    ensures multiset(disabled) == multiset(DisabledNames(caps.Keys, mode, providers))
    ensures |enabled| + |disabled| == |ProviderKeys(caps.Keys)|
  {
    assert caps.Keys - {} == caps.Keys;
    assert forall k :: k in caps ==> filtered[k] == Filtered(caps, mode, providers)[k];
  }

  /** The loop of read_write.go that walks the capability keys in whatever
      order the map yields them, overwrites the entries to disable with
      `false` and records each bare name as enabled or disabled. */
  method FilterCapabilities(caps: map<string, Json>, mode: FilterMode, providers: seq<string>)
    returns (filtered: map<string, Json>, enabled: seq<string>, disabled: seq<string>)
    ensures filtered == Filtered(caps, mode, providers)
    ensures multiset(enabled) == multiset(EnabledNames(caps.Keys, mode, providers))
    ensures multiset(disabled) == multiset(DisabledNames(caps.Keys, mode, providers))
    ensures |enabled| + |disabled| == |ProviderKeys(caps.Keys)|
  {
    filtered, enabled, disabled := caps, [], [];
    var todo := caps.Keys;
    assert caps.Keys - todo == {};
    while todo != {}
      invariant Walked(caps, todo, mode, providers, filtered, enabled, disabled)
      decreases todo
    {
      var k :| k in todo;
      if !HasSuffix(k) {
        StepOther(caps, todo, mode, providers, filtered, enabled, disabled, k);
        todo := todo - {k};
        continue;
      }
      var rawName := TrimSuffix(k);
      var index := Utils.IndexOf(rawName, providers);
      var contains := index >= 0;
      if (mode == DisableFilter && contains) || (mode == EnableFilter && !contains) {
        StepDisabled(caps, todo, mode, providers, filtered, enabled, disabled, k);
        filtered := filtered[k := Bool(false)];
        disabled := disabled + [rawName];
      } else {
        StepEnabled(caps, todo, mode, providers, filtered, enabled, disabled, k);
        enabled := enabled + [rawName];
      }
      todo := todo - {k};
    }
    WalkDone(caps, mode, providers, filtered, enabled, disabled);
  }

  /** Filtering depends only on key names, so filtering the filtered map
      again with the same mode and providers changes nothing. */
  lemma FilterIdempotent(caps: map<string, Json>, mode: FilterMode, providers: seq<string>)
    ensures Filtered(Filtered(caps, mode, providers), mode, providers) == Filtered(caps, mode, providers)
  {
    var once := Filtered(caps, mode, providers);
    var twice := Filtered(once, mode, providers);
    forall k | k in caps ensures twice[k] == once[k] {
    }
  }

  /** With no filter every bare name is recorded as enabled. */
  lemma NoFilterEnablesAll(keys: set<string>, providers: seq<string>)
    ensures EnabledNames(keys, NoFilter, providers) == Names(keys)
    ensures DisabledNames(keys, NoFilter, providers) == {}
  {
    NamesPartition(keys, NoFilter, providers);
  }

  /** A capability key is its bare name followed by the marker. */
  lemma KeyOfName(name: string)
    ensures HasSuffix(name + Suffix) && TrimSuffix(name + Suffix) == name
  {
    assert (name + Suffix)[|name|..] == Suffix;
    assert (name + Suffix)[..|name|] == name;
  }

  /** The three capabilities "foo", "bar" and "baz", all on. */
  function AllOn(): map<string, Json> {
    map["fooProvider" := Bool(true), "barProvider" := Bool(true), "bazProvider" := Bool(true)]
  }

  lemma ExampleKeys()
    ensures HasSuffix("fooProvider") && TrimSuffix("fooProvider") == "foo"
    ensures HasSuffix("barProvider") && TrimSuffix("barProvider") == "bar"
    ensures HasSuffix("bazProvider") && TrimSuffix("bazProvider") == "baz"
  {
    KeyOfName("foo");
    KeyOfName("bar");
    KeyOfName("baz");
  }

  /** Enabling only "foo" turns "bar" and "baz" off. */
  lemma EnableExample()
    ensures Filtered(AllOn(), EnableFilter, ["foo"]) ==
      map["fooProvider" := Bool(true), "barProvider" := Bool(false), "bazProvider" := Bool(false)]
  {
    ExampleKeys();
  }

  /** Disabling "bar" turns only "bar" off. */
  lemma DisableExample()
    ensures Filtered(AllOn(), DisableFilter, ["bar"]) ==
      map["fooProvider" := Bool(true), "barProvider" := Bool(false), "bazProvider" := Bool(true)]
  {
    ExampleKeys();
  }
}
