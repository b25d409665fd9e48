/** The tenants' public keys from two sources: key sets loaded from configuration, which are shared
    objects, and signing keys in the database. */
module KeyStore {
  import opened Common
  import opened Jws

  class JsonWebKeySet {
    var keys: seq<JsonWebKey>

    constructor ()
      ensures keys == []
    {
      keys := [];
    }
  }

  /** A key row that serves consent tokens. */
  datatype KeyRow = KeyRow(tenantId: Guid, retired: bool, publicJwk: string)

  function SlugOf(tenants: seq<Tenant>, id: Guid): Option<string> {
    if tenants == [] then None
    else if tenants[0].id == id then Some(tenants[0].slug)
    else SlugOf(tenants[1..], id)
  }

  type JwkReader = string -> Option<JsonWebKey>

  /** The key of a row's text; blank and malformed texts give none. */
  function KeyOf(read: JwkReader, text: string): seq<JsonWebKey> {
    if Blank(text) then []
    else
      var key := read(text);
      if key.None? then [] else [key.value]
  }

  predicate InForce(tenants: seq<Tenant>, row: KeyRow, slug: string) {
    !row.retired && SlugOf(tenants, row.tenantId) == Some(slug)
  }

  /** What a row adds to the keys of the tenant with the given slug. */
  function Adds(read: JwkReader, tenants: seq<Tenant>, row: KeyRow, slug: string): seq<JsonWebKey> {
    if InForce(tenants, row, slug) then KeyOf(read, row.publicJwk) else []
  }

  /** The keys in force of the tenant with the given slug, in row order. */
  function Stored(read: JwkReader, tenants: seq<Tenant>, rows: seq<KeyRow>, slug: string): seq<JsonWebKey> {
    if rows == [] then []
    else Stored(read, tenants, rows[..|rows| - 1], slug) + Adds(read, tenants, rows[|rows| - 1], slug)
  }

  type Config = map<string, JsonWebKeySet>

  /** The keys of a tenant: the configured ones, then the stored ones, in order. */
  ghost function KeysFor(read: JwkReader, config: Config, tenants: seq<Tenant>, rows: seq<KeyRow>, slug: string): seq<JsonWebKey>
    reads config.Values
  {
    (if slug in config then config[slug].keys else []) + Stored(read, tenants, rows, slug)
  }

  /** Two slugs never share a set of the result. */
  ghost predicate Separate(all: map<string, JsonWebKeySet>) {
    forall a, b | a in all && b in all && a != b :: all[a] != all[b]
  }

  /** The keys that a result lists for a slug, an absent or empty set being the same. */
  ghost function Listed(all: map<string, JsonWebKeySet>, slug: string): seq<JsonWebKey>
    reads all.Values
  {
    if slug in all then all[slug].keys else []
  }

  function ConfiguredFor(configured: map<string, seq<JsonWebKey>>, slug: string): seq<JsonWebKey> {
    if slug in configured then configured[slug] else []
  }

  /** For every slug the configured keys, then those of the rows. */
  ghost predicate Lists(all: map<string, JsonWebKeySet>, configured: map<string, seq<JsonWebKey>>, read: JwkReader,
                        tenants: seq<Tenant>, rows: seq<KeyRow>)
    reads all.Values
  {
    forall slug :: Listed(all, slug) == ConfiguredFor(configured, slug) + Stored(read, tenants, rows, slug)
  }

  lemma ListsConfigured(all: map<string, JsonWebKeySet>, configured: map<string, seq<JsonWebKey>>, read: JwkReader,
                        tenants: seq<Tenant>, rows: seq<KeyRow>)
    requires rows == [] && forall slug :: Listed(all, slug) == ConfiguredFor(configured, slug)
    ensures Lists(all, configured, read, tenants, rows)
  {
  }

  lemma ListsKeys(all: map<string, JsonWebKeySet>, configured: map<string, seq<JsonWebKey>>, read: JwkReader, config: Config,
                  tenants: seq<Tenant>, rows: seq<KeyRow>)
    requires configured.Keys == config.Keys && forall s | s in config :: config[s].keys == configured[s]
    requires Lists(all, configured, read, tenants, rows)
    ensures forall slug :: Listed(all, slug) == KeysFor(read, config, tenants, rows, slug)
  {
  }

  lemma StoredNext(read: JwkReader, tenants: seq<Tenant>, rows: seq<KeyRow>, i: nat, slug: string)
    requires i < |rows|
    ensures Stored(read, tenants, rows[..i + 1], slug) == Stored(read, tenants, rows[..i], slug) + Adds(read, tenants, rows[i], slug)
  {
    assert rows[..i + 1][..i] == rows[..i];
  }

  /** The row serves the tenant with the slug: it is not retired and its tenant, the first with that id,
      has the slug. */
  predicate Serves(tenants: seq<Tenant>, row: KeyRow, slug: string) {
    && !row.retired
    && exists i | 0 <= i < |tenants| ::
         tenants[i].id == row.tenantId && tenants[i].slug == slug && forall j | 0 <= j < i :: tenants[j].id != row.tenantId
  }

  lemma {:induction false} SlugIs(tenants: seq<Tenant>, id: Guid) returns (i: nat)
    ensures i <= |tenants| && forall j | 0 <= j < i :: tenants[j].id != id
    ensures if i < |tenants| then tenants[i].id == id && SlugOf(tenants, id) == Some(tenants[i].slug) else SlugOf(tenants, id) == None
  {
    i := 0;
    if tenants != [] && tenants[0].id != id {
      i := SlugIs(tenants[1..], id);
      i := i + 1;
    }
  }

  lemma InForceServes(tenants: seq<Tenant>, row: KeyRow, slug: string)
    ensures InForce(tenants, row, slug) <==> Serves(tenants, row, slug)
  {
    var i := SlugIs(tenants, row.tenantId);
  }

  /** A tenant's stored keys are those of its rows in force whose text is a key. */
  lemma {:induction false} StoredAre(read: JwkReader, tenants: seq<Tenant>, rows: seq<KeyRow>, slug: string, key: JsonWebKey)
    ensures key in Stored(read, tenants, rows, slug)
       <==> exists row | row in rows :: Serves(tenants, row, slug) && !Blank(row.publicJwk) && read(row.publicJwk) == Some(key)
  {
    hide InForce, Serves;
    if rows != [] {
      var n := |rows| - 1;
      StoredAre(read, tenants, rows[..n], slug, key);
      assert rows == rows[..n] + [rows[n]];
      var all, last := Stored(read, tenants, rows, slug), rows[n];
      InForceServes(tenants, last, slug);
      assert key in all <==> key in Stored(read, tenants, rows[..n], slug)
                             || (Serves(tenants, last, slug) && key in KeyOf(read, last.publicJwk));
      if exists row | row in rows :: Serves(tenants, row, slug) && !Blank(row.publicJwk) && read(row.publicJwk) == Some(key) {
        var row :| row in rows && Serves(tenants, row, slug) && !Blank(row.publicJwk) && read(row.publicJwk) == Some(key);
        assert row in rows[..n] || row == last;
      }
    }
  }

  class CompositeTenantKeyStore {
    /** The sets of the configuration store, cached for the process. */
    const config: Config
    const read: JwkReader

    constructor (config: Config, read: JwkReader)
      ensures this.config == config && this.read == read
    {
      this.config := config;
      this.read := read;
    }

    method AddKeys(target: JsonWebKeySet, source: seq<JsonWebKey>)
      modifies target
      ensures target.keys == old(target.keys) + source
    {
      for i := 0 to |source|
        invariant target.keys == old(target.keys) + source[..i]
      {
        target.keys := target.keys + [source[i]];
        assert source[..i + 1] == source[..i] + [source[i]];
      }
      assert source[..|source|] == source;
    }

    method CloneSet(source: JsonWebKeySet) returns (clone: JsonWebKeySet)
      ensures fresh(clone) && clone.keys == source.keys
    {
      clone := new JsonWebKeySet();
      AddKeys(clone, source.keys);
    }

    /** Malformed keys are ignored. */
    method TryAddKey(target: JsonWebKeySet, text: string)
      modifies target
      ensures target.keys == old(target.keys) + KeyOf(read, text)
    {
      if Blank(text) {
        return;
      }
      var key := read(text);
      if key.Some? {
        target.keys := target.keys + [key.value];
      }
    }

    /** No cached set is changed: only a new one is. */
    method BuildForTenant(tenants: seq<Tenant>, rows: seq<KeyRow>, slug: string) returns (r: Option<JsonWebKeySet>)
      ensures r.None? <==> KeysFor(read, config, tenants, rows, slug) == []
      ensures r.Some? ==> fresh(r.value) && r.value.keys == KeysFor(read, config, tenants, rows, slug)
    {
      var target := new JsonWebKeySet();
      if slug in config {
        AddKeys(target, config[slug].keys);
      }
      ghost var configured := target.keys;
      assert Stored(read, tenants, rows[..0], slug) == [];
      hide Stored, KeyOf, SlugOf;
      for i := 0 to |rows|
        invariant target.keys == configured + Stored(read, tenants, rows[..i], slug)
      {
        StoredNext(read, tenants, rows, i, slug);
        Regroup(configured, Stored(read, tenants, rows[..i], slug), Adds(read, tenants, rows[i], slug));
        if !rows[i].retired && SlugOf(tenants, rows[i].tenantId) == Some(slug) {
          TryAddKey(target, rows[i].publicJwk);
        }
      }
      assert rows[..|rows|] == rows;
      return if |target.keys| == 0 then None else Some(target);
    }

    method TryGetKeys(tenants: seq<Tenant>, rows: seq<KeyRow>, slug: string) returns (found: bool, jwks: Option<JsonWebKeySet>)
      ensures found <==> jwks.Some?
      ensures found <==> KeysFor(read, config, tenants, rows, slug) != []
      ensures found ==> fresh(jwks.value) && jwks.value.keys == KeysFor(read, config, tenants, rows, slug)
      ensures found ==> jwks.value.keys == (if slug in config then config[slug].keys else []) + Stored(read, tenants, rows, slug)
    {
      jwks := BuildForTenant(tenants, rows, slug);
      found := jwks.Some? && |jwks.value.keys| > 0;
    }

    /** The result holds new sets only, and for every slug the same keys in the same order as
        TryGetKeys. */
    method GetAll(tenants: seq<Tenant>, rows: seq<KeyRow>) returns (all: map<string, JsonWebKeySet>)
      ensures Separate(all) && forall s | s in all :: fresh(all[s])
      ensures forall slug :: Listed(all, slug) == KeysFor(read, config, tenants, rows, slug)
    {
      hide Stored, Lists;
      ghost var configured := map s | s in config :: config[s].keys;
      all := CloneConfigured();
      assert Lists(all, configured, read, tenants, rows[..0]) by { ListsConfigured(all, configured, read, tenants, rows[..0]); }
      for i := 0 to |rows|
        invariant Separate(all) && forall s | s in all :: fresh(all[s])
        invariant forall s | s in config :: config[s].keys == configured[s]
        invariant Lists(all, configured, read, tenants, rows[..i])
      {
        all := AddRow(configured, tenants, rows, i, all);
      }
      assert rows[..|rows|] == rows;
      ListsKeys(all, configured, read, config, tenants, rows);
    }

    /** One record of the second loop. */
    method AddRow(ghost configured: map<string, seq<JsonWebKey>>, tenants: seq<Tenant>, rows: seq<KeyRow>, i: nat,
                  before: map<string, JsonWebKeySet>) returns (all: map<string, JsonWebKeySet>)
      requires Separate(before) && i < |rows| && Lists(before, configured, read, tenants, rows[..i])
      modifies before.Values
      ensures Separate(all) && forall s | s in all :: fresh(all[s]) || (s in before && all[s] == before[s])
      ensures Lists(all, configured, read, tenants, rows[..i + 1])
    {
      hide Stored, KeyOf, SlugOf;
      all := before;
      var slug := SlugOf(tenants, rows[i].tenantId);
      if !rows[i].retired && slug.Some? {
        all := AddRecord(all, slug.value, rows[i].publicJwk);
      }
      forall s ensures Listed(all, s) == ConfiguredFor(configured, s) + Stored(read, tenants, rows[..i + 1], s) {
        assert Listed(all, s) == old(Listed(before, s)) + Adds(read, tenants, rows[i], s);
        StoredNext(read, tenants, rows, i, s);
        Regroup(ConfiguredFor(configured, s), Stored(read, tenants, rows[..i], s), Adds(read, tenants, rows[i], s));
      }
    }

    /** The first loop: a clone of every configured set that is not empty. */
    method CloneConfigured() returns (all: map<string, JsonWebKeySet>)
      ensures Separate(all) && forall s | s in all :: fresh(all[s])
      ensures forall slug :: Listed(all, slug) == if slug in config then config[slug].keys else []
    {
      all := map[];
      var slugs := config.Keys;
      while slugs != {}
        invariant slugs <= config.Keys
        invariant Separate(all) && forall s | s in all :: fresh(all[s]) && s in config && s !in slugs
        invariant forall slug :: Listed(all, slug) == if slug in config && slug !in slugs then config[slug].keys else []
      {
        var slug :| slug in slugs;
        slugs := slugs - {slug};
        if |config[slug].keys| > 0 {
          var clone := CloneSet(config[slug]);
          all := all[slug := clone];
        }
      }
    }

    /** One record of the second loop: the slug's set, a new one if there is none, gets its key. */
    method AddRecord(before: map<string, JsonWebKeySet>, slug: string, text: string) returns (all: map<string, JsonWebKeySet>)
      requires Separate(before)
      modifies before.Values
      ensures Separate(all) && forall s | s in all :: fresh(all[s]) || (s in before && all[s] == before[s])
      ensures forall s :: Listed(all, s) == old(Listed(before, s)) + if s == slug then KeyOf(read, text) else []
    {
      all := before;
      var target: JsonWebKeySet;
      if slug in all {
        target := all[slug];
      } else {
        target := new JsonWebKeySet();
        all := all[slug := target];
      }
      TryAddKey(target, text);
    }

    /** Calls to either form agree with each other, in any order and as often as one likes: no call
        changes the cached sets, so nothing a caller gets can show a difference. */
    method CallsAgree(tenants: seq<Tenant>, rows: seq<KeyRow>, slug: string)
        returns (all: map<string, JsonWebKeySet>, found: bool, jwks: Option<JsonWebKeySet>, again: map<string, JsonWebKeySet>)
      ensures found <==> Listed(all, slug) != []
      ensures found ==> jwks.Some? && jwks.value.keys == Listed(all, slug)
      ensures forall s :: Listed(again, s) == Listed(all, s)
    {
      all := GetAll(tenants, rows);
      found, jwks := TryGetKeys(tenants, rows, slug);
      again := GetAll(tenants, rows);
    }
  }
}
