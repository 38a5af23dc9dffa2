/**
 * The credentials hook: API key, custom URL, region and instance id, each
 * initialised from session storage (modelled as a map from storage key to
 * value) and written back to it whenever it is non-empty; plus the accessors
 * the analysis request uses.
 */
module Credentials {

  /** The four values the hook keeps. */
  datatype Field = ApiKey | Url | Region | InstanceId

  /** The session-storage key each value lives under. */
  function StorageKey(f: Field): (key: string)
    ensures key != []
  {
    match f
    case ApiKey => "watson_api_key"
    case Url => "watson_url"
    case Region => "watson_region"
    case InstanceId => "watson_instance_id"
  }

  /** Each value has its own storage key. */
  lemma StorageKeysDistinct(f: Field, g: Field)
    ensures StorageKey(f) == StorageKey(g) <==> f == g
  {
  }

  const DefaultRegion := "eu-de"
  const CustomRegion := "custom"
  const IamAuthType := "iam"

  /** The value a field starts with when the store has nothing (or an empty string) for it. */
  function Default(f: Field): (d: string)
    ensures f == Region ==> d == DefaultRegion && d != []
    ensures f != Region ==> d == []
  {
    if f == Region then DefaultRegion else ""
  }

  /** `store.getItem(key) || default`: a missing or empty stored value falls back to the default. */
  function StoredOr(store: map<string, string>, key: string, default: string): (v: string)
    ensures key in store && store[key] != [] ==> v == store[key]
    ensures !(key in store && store[key] != []) ==> v == default
  {
    if key in store && store[key] != [] then store[key] else default
  }

  /** The persistence effect `if (value) store.setItem(key, value)`. */
  function Persist(store: map<string, string>, key: string, value: string): (s: map<string, string>)
    ensures value != [] ==> key in s && s[key] == value
    ensures value == [] ==> s == store
    ensures forall k :: k != key ==> (k in s <==> k in store)
    ensures forall k :: k != key && k in store ==> s[k] == store[k]
  {
    if value != [] then store[key := value] else store
  }

  /** Persisting what the store already holds, or an empty value, leaves it as it is. */
  lemma PersistStored(store: map<string, string>, key: string, value: string)
    requires value == [] || (key in store && store[key] == value)
    ensures Persist(store, key, value) == store
  {
  }

  /** The store after the persistence effects of these field writes, in order. */
  function PersistAll(store: map<string, string>, writes: seq<(Field, string)>): map<string, string>
    decreases |writes|
  {
    if writes == [] then store
    else PersistAll(Persist(store, StorageKey(writes[0].0), writes[0].1), writes[1..])
  }

  /** Some write in `writes` put the non-empty `value` under `key`, its field's own storage key. */
  ghost predicate WrittenBy(writes: seq<(Field, string)>, key: string, value: string) {
    exists w <- writes :: StorageKey(w.0) == key && w.1 == value && value != []
  }

  /**
   * Persistence is one-way: through any sequence of writes, no stored key is
   * ever removed, and every entry is either the one stored before or a
   * non-empty value that one of the writes put under its field's own key.
   */
  lemma {:induction false} PersistenceIsOneWay(store: map<string, string>, writes: seq<(Field, string)>)
    ensures store.Keys <= PersistAll(store, writes).Keys
    ensures forall k <- PersistAll(store, writes) ::
              (k in store && PersistAll(store, writes)[k] == store[k]) || WrittenBy(writes, k, PersistAll(store, writes)[k])
    decreases |writes|
  {
    if writes != [] {
      var key, value := StorageKey(writes[0].0), writes[0].1;
      var next := Persist(store, key, value);
      PersistenceIsOneWay(next, writes[1..]);
      var fin := PersistAll(store, writes);
      assert fin == PersistAll(next, writes[1..]);
      forall k | k in fin
        ensures (k in store && fin[k] == store[k]) || WrittenBy(writes, k, fin[k])
      {
        if k in next && fin[k] == next[k] {
          if !(k in store && next[k] == store[k]) {
            assert k == key && value != [] && next[k] == value;
            assert writes[0] in writes;
          }
        } else {
          var w :| w in writes[1..] && StorageKey(w.0) == k && w.1 == fin[k] && w.1 != [];
          assert w in writes;
        }
      }
    }
  }

  /** Writing an empty value never changes the store. */
  lemma {:induction false} EmptyWritesAreIgnored(store: map<string, string>, writes: seq<(Field, string)>)
    requires forall w <- writes :: w.1 == []
    ensures PersistAll(store, writes) == store
    decreases |writes|
  {
    if writes != [] {
      assert writes[0] in writes;
      assert forall w <- writes[1..] :: w in writes;
      EmptyWritesAreIgnored(store, writes[1..]);
    }
  }

  const EndpointScheme := "https://api."
  const EndpointHost := ".natural-language-understanding.watson.cloud.ibm.com/instances/"
  const EndpointPath := "/v1/analyze?version=2022-04-07"

  /** The service endpoint of a region and an instance. */
  function DerivedEndpoint(region: string, instanceId: string): (u: string)
  {
    EndpointScheme + region + EndpointHost + instanceId + EndpointPath
  }

  /**
   * The endpoint is the fixed scheme, the region, the fixed host, the
   * instance id and the fixed versioned path, in that order and nothing else.
   */
  lemma DerivedEndpointLayout(region: string, instanceId: string)
    ensures var u := DerivedEndpoint(region, instanceId);
      var i, j, k := |EndpointScheme|, |EndpointScheme| + |region|, |EndpointScheme| + |region| + |EndpointHost|;
      && u[..i] == EndpointScheme
      && u[i..j] == region
      && u[j..k] == EndpointHost
      && u[k..k + |instanceId|] == instanceId
      && u[k + |instanceId|..] == EndpointPath
  {
  }

  /**
   * The endpoint can be read back: knowing the region's length, the region
   * and the instance id are the slices of the endpoint at fixed offsets. (The
   * length is needed: a region that itself contains the host text can give
   * the same endpoint as another region and instance id.)
   */
  lemma EndpointDeterminesRegionAndInstance(r1: string, i1: string, r2: string, i2: string)
    requires DerivedEndpoint(r1, i1) == DerivedEndpoint(r2, i2) && |r1| == |r2|
    ensures r1 == r2 && i1 == i2
  {
    DerivedEndpointLayout(r1, i1);
    DerivedEndpointLayout(r2, i2);
  }

  /** `getCurrentUrl`: the derived endpoint unless the region is "custom", then the stored url. */
  function EndpointUrl(region: string, instanceId: string, url: string): (u: string)
    ensures region != CustomRegion ==> u == DerivedEndpoint(region, instanceId) && u != []
    ensures region == CustomRegion ==> u == url
  {
    if region != CustomRegion then DerivedEndpoint(region, instanceId) else url
  }

  /** A custom region takes the stored url verbatim, whatever the instance id. */
  lemma CustomRegionIgnoresInstance(instance1: string, instance2: string, url: string)
    ensures EndpointUrl(CustomRegion, instance1, url) == EndpointUrl(CustomRegion, instance2, url) == url
  {
  }

  /** Every non-empty value is what the store holds under its key. */
  ghost predicate Mirrors(store: map<string, string>, key: string, value: string) {
    value != [] ==> key in store && store[key] == value
  }

  class CredentialsConfig {
    var apiKey: string
    var url: string
    var region: string
    var instanceId: string
    var store: map<string, string>

    function Get(f: Field): string
      reads this
    {
      match f
      case ApiKey => apiKey
      case Url => url
      case Region => region
      case InstanceId => instanceId
    }

    /** The store agrees with every non-empty field. */
    ghost predicate Valid()
      reads this
    {
      forall f: Field :: Mirrors(store, StorageKey(f), Get(f))
    }

    /**
     * Mount: each field is read from the store, falling back to its default,
     * then the persistence effects run once, which writes the default region
     * back when the store had none; nothing else in the store changes.
     */
    constructor (initialStore: map<string, string>)
      ensures forall f: Field :: Get(f) == StoredOr(initialStore, StorageKey(f), Default(f))
      ensures region != []
      ensures store == if StorageKey(Region) in initialStore && initialStore[StorageKey(Region)] != []
                       then initialStore
                       else initialStore[StorageKey(Region) := DefaultRegion]
      ensures Valid()
    {
      var k, u, r, i := StorageKey(ApiKey), StorageKey(Url), StorageKey(Region), StorageKey(InstanceId);
      var key0, url0 := StoredOr(initialStore, k, ""), StoredOr(initialStore, u, "");
      var region0, instance0 := StoredOr(initialStore, r, DefaultRegion), StoredOr(initialStore, i, "");
      apiKey, url, region, instanceId := key0, url0, region0, instance0;
      ghost var expected := if r in initialStore && initialStore[r] != [] then initialStore
                            else initialStore[r := DefaultRegion];
      var s := initialStore;
      PersistStored(s, k, key0);
      s := Persist(s, k, key0);
      PersistStored(s, u, url0);
      s := Persist(s, u, url0);
      s := Persist(s, r, region0);
      assert s == expected;
      PersistStored(s, i, instance0);
      s := Persist(s, i, instance0);
      store := s;
      new;
      forall f: Field
        ensures Get(f) == StoredOr(initialStore, StorageKey(f), Default(f))
        ensures Mirrors(store, StorageKey(f), Get(f))
      {
        match f
        case ApiKey =>
        case Url =>
        case Region =>
        case InstanceId =>
      }
    }

    /**
     * A setter followed by its persistence effect: the field takes the new
     * value, the other fields keep theirs, and the store changes only under
     * the field's own key and only when the value is non-empty.
     */
    method Set(f: Field, value: string)
      requires Valid()
      modifies this
      ensures Valid()
      ensures Get(f) == value
      ensures forall g: Field :: g != f ==> Get(g) == old(Get(g))
      ensures store == Persist(old(store), StorageKey(f), value)
    {
      match f {
        case ApiKey => apiKey := value;
        case Url => url := value;
        case Region => region := value;
        case InstanceId => instanceId := value;
      }
      store := Persist(store, StorageKey(f), value);
      forall g: Field ensures Mirrors(store, StorageKey(g), Get(g)) {
        StorageKeysDistinct(f, g);
      }
    }

    /** `getCurrentApiKey`: the stored key, unchanged. */
    function CurrentApiKey(): (key: string)
      reads this
      ensures key == Get(ApiKey)
    {
      apiKey
    }

    /** `getCurrentUrl`. */
    function CurrentUrl(): (u: string)
      reads this
      ensures region != CustomRegion ==> u == DerivedEndpoint(region, instanceId) && u != []
      ensures region == CustomRegion ==> u == url
    {
      EndpointUrl(region, instanceId, url)
    }

    /** `getAuthType`: always "iam", whatever the state. */
    function AuthType(): (t: string)
      ensures t == IamAuthType
    {
      IamAuthType
    }
  }
}
