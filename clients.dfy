/**
 * Registering crawler credentials (utils/create_clients.py): a crawler is created
 * under its name, or the existing crawler of that name gets the new token.
 */
module Clients {
  import opened Wrappers
  import opened Schema

  /** One record of the credentials file: `{"name": ..., "token": ...}`. */
  datatype Client = Client(name: string, token: string)

  /** The crawlers table and its next primary key. */
  datatype Registry = Registry(crawlers: map<nat, Crawler>, next: nat)

  ghost predicate WellKeyed(r: Registry) {
    && UniqueNames(r.crawlers)
    && (forall id :: id in r.crawlers ==> id < r.next)
  }

  /** The registry after `create_client(c)` at time `now`. */
  ghost function Upsert(r: Registry, c: Client, now: Timestamp): Registry {
    match CrawlerNamed(r.crawlers, c.name)
    case Some(id) => Registry(r.crawlers[id := r.crawlers[id].(token := c.token)], r.next)
    case None => Registry(r.crawlers[r.next := NewCrawler(c.name, c.token, now)], r.next + 1)
  }

  /** The registry after `create_client` ran for each record in turn. */
  ghost function UpsertAll(r: Registry, cs: seq<Client>, now: Timestamp): Registry
    decreases |cs|
  {
    if cs == [] then r else Upsert(UpsertAll(r, cs[..|cs| - 1], now), cs[|cs| - 1], now)
  }

  /** Under unique names, the crawler with a given name is that one id. */
  lemma NamedUnique(crawlers: map<nat, Crawler>, name: string, id: nat)
    requires UniqueNames(crawlers)
    requires id in crawlers && crawlers[id].name == name
    ensures CrawlerNamed(crawlers, name) == Some(id)
  {
  }

  /**
   * `create_client` keeps names unique, and afterwards exactly the crawler called
   * `c.name` carries `c.token`: an existing one keeps its id, name, creation time and
   * failure count; otherwise a new one is created with no failures. Every other
   * crawler is untouched.
   */
  lemma UpsertSpec(r: Registry, c: Client, now: Timestamp)
    requires WellKeyed(r)
    ensures var u := Upsert(r, c, now);
      && WellKeyed(u)
      && CrawlerNamed(u.crawlers, c.name).Some?
      && u.crawlers[CrawlerNamed(u.crawlers, c.name).value].token == c.token
      && (forall id :: id in r.crawlers && r.crawlers[id].name != c.name ==> id in u.crawlers && u.crawlers[id] == r.crawlers[id])
      && (forall id :: id in u.crawlers && id !in r.crawlers ==> u.crawlers[id] == NewCrawler(c.name, c.token, now))
  {
    var u := Upsert(r, c, now);
    match CrawlerNamed(r.crawlers, c.name)
    case Some(id) =>
      assert u.crawlers == r.crawlers[id := r.crawlers[id].(token := c.token)];
      NamedUnique(u.crawlers, c.name, id);
    case None =>
      assert u.crawlers[r.next].name == c.name;
      NamedUnique(u.crawlers, c.name, r.next);
  }

  /** An existing crawler only gets its token replaced. */
  lemma UpsertExisting(r: Registry, c: Client, now: Timestamp, id: nat)
    requires WellKeyed(r)
    requires id in r.crawlers && r.crawlers[id].name == c.name
    ensures var u := Upsert(r, c, now);
      && u.next == r.next
      && u.crawlers.Keys == r.crawlers.Keys
      && u.crawlers[id] == Crawler(c.name, c.token, r.crawlers[id].createdAt, r.crawlers[id].failedAuthenticationCount)
  {
    NamedUnique(r.crawlers, c.name, id);
  }

  /** Registering the same record twice leaves the registry as registering it once. */
  lemma UpsertIdempotent(r: Registry, c: Client, now: Timestamp, later: Timestamp)
    requires WellKeyed(r)
    ensures Upsert(Upsert(r, c, now), c, later) == Upsert(r, c, now)
  {
    var u := Upsert(r, c, now);
    UpsertSpec(r, c, now);
    var id := CrawlerNamed(u.crawlers, c.name).value;
    assert u.crawlers[id].token == c.token;
    assert u.crawlers[id := u.crawlers[id].(token := c.token)] == u.crawlers;
  }

  /** Record `k` is the last one in `cs` with its name. */
  ghost predicate LastOfName(cs: seq<Client>, k: int) {
    0 <= k < |cs| && forall j :: k < j < |cs| ==> cs[j].name != cs[k].name
  }

  /** No record in `cs` has this name. */
  ghost predicate Unnamed(cs: seq<Client>, name: string) {
    forall k :: 0 <= k < |cs| ==> cs[k].name != name
  }

  /**
   * Registering a whole credentials file keeps names unique; each listed name ends
   * up on one crawler carrying the token of the name's last record; a crawler whose
   * name no record mentions is untouched.
   */
  lemma {:induction false} UpsertAllSpec(r: Registry, cs: seq<Client>, now: Timestamp)
    requires WellKeyed(r)
    ensures var u := UpsertAll(r, cs, now);
      && WellKeyed(u)
      && (forall k :: LastOfName(cs, k) ==>
            CrawlerNamed(u.crawlers, cs[k].name).Some?
            && u.crawlers[CrawlerNamed(u.crawlers, cs[k].name).value].token == cs[k].token)
      && (forall id :: id in r.crawlers && Unnamed(cs, r.crawlers[id].name) ==>
            id in u.crawlers && u.crawlers[id] == r.crawlers[id])
    decreases |cs|
  {
    if cs != [] {
      var n := |cs| - 1;
      var p, c := cs[..n], cs[n];
      UpsertAllSpec(r, p, now);
      var v := UpsertAll(r, p, now);
      var u := Upsert(v, c, now);
      assert UpsertAll(r, cs, now) == u;
      UpsertSpec(v, c, now);
      forall k | LastOfName(cs, k)
        ensures CrawlerNamed(u.crawlers, cs[k].name).Some?
          && u.crawlers[CrawlerNamed(u.crawlers, cs[k].name).value].token == cs[k].token
      {
        if k < n {
          assert p[k] == cs[k];
          assert LastOfName(p, k);
          var id := CrawlerNamed(v.crawlers, cs[k].name).value;
          assert cs[k].name != c.name;
          NamedUnique(u.crawlers, cs[k].name, id);
        }
      }
      forall id | id in r.crawlers && Unnamed(cs, r.crawlers[id].name)
        ensures id in u.crawlers && u.crawlers[id] == r.crawlers[id]
      {
        assert Unnamed(p, r.crawlers[id].name) by {
          forall k | 0 <= k < |p| ensures p[k].name != r.crawlers[id].name {
            assert p[k] == cs[k];
          }
        }
        assert c.name != r.crawlers[id].name;
      }
    }
  }

  /** `create_client`. */
  method CreateClient(db: Database, c: Client, now: Timestamp)
    requires db.Valid()
    modifies db`crawlers, db`nextCrawlerId
    ensures db.Valid()
    ensures Registry(db.crawlers, db.nextCrawlerId) == Upsert(Registry(old(db.crawlers), old(db.nextCrawlerId)), c, now)
  {
    ghost var r := Registry(db.crawlers, db.nextCrawlerId);
    UpsertSpec(r, c, now);
    var found := db.FindCrawler(c.name);
    assert found == CrawlerNamed(db.crawlers, c.name);
    match found
    case Some(id) =>
      db.crawlers := db.crawlers[id := db.crawlers[id].(token := c.token)];
    case None =>
      db.crawlers := db.crawlers[db.nextCrawlerId := NewCrawler(c.name, c.token, now)];
      db.nextCrawlerId := db.nextCrawlerId + 1;
  }

  /** The loop of `create_clients` over the records of the credentials file. */
  method CreateClients(db: Database, cs: seq<Client>, now: Timestamp)
    requires db.Valid()
    modifies db`crawlers, db`nextCrawlerId
    ensures db.Valid()
    ensures Registry(db.crawlers, db.nextCrawlerId) == UpsertAll(Registry(old(db.crawlers), old(db.nextCrawlerId)), cs, now)
  {
    for i := 0 to |cs|
      invariant db.Valid()
      invariant Registry(db.crawlers, db.nextCrawlerId) == UpsertAll(Registry(old(db.crawlers), old(db.nextCrawlerId)), cs[..i], now)
    {
      assert cs[..i + 1][..i] == cs[..i];
      CreateClient(db, cs[i], now);
    }
    assert cs[..|cs|] == cs;
  }
}
