/**
 The `urls` collection and the two handlers that use it, PostGenerateShortURL
 and GetRedirectShortURL of main.go, as a pure state machine over a sequence
 of documents in insertion order.

 Outcomes of the database driver (whether InsertOne or FindOne reached the
 server), the clock (`time.Now`) and the environment (`IS_TEST`, `BASE_URL`)
 are parameters. Each `log.Fatalf` path becomes an error result.
 */
module Shortener {
  import opened Wrappers
  import Tokens

  /** One document of the `urls` collection; `lastModified` is in seconds. */
  datatype Doc = Doc(originalURL: string, shortID: string, lastModified: int)

  /** The collection's documents, oldest first. */
  type Store = seq<Doc>

  /** The `data` part of the create response. */
  datatype Response = Response(originalURL: string, shortURL: string, shortID: string)

  /** The collection after a successful create, with the response sent back. */
  datatype Created = Created(store: Store, response: Response)

  /** The error responses of the two handlers, named after their messages. */
  datatype Error = InsertDocumentFailed | ShortIDNotSent | GetDocumentFailed

  /** The environment variables the handlers read. */
  datatype Env = Env(isTest: bool, baseURL: string)

  /** Whether some document carries the token `id`. */
  predicate HasToken(store: Store, id: string) {
    exists k :: 0 <= k < |store| && store[k].shortID == id
  }

  /** The full short link for a token. */
  function ShortURL(baseURL: string, id: string): (u: string)
    ensures |u| == |baseURL| + 3 + |id|
    ensures u[..|baseURL|] == baseURL && u[|baseURL|..|baseURL| + 3] == "/s/" && u[|baseURL| + 3..] == id
  {
    baseURL + "/s/" + id
  }

  /**
   The document FindOne returns for the filter `shortid == id`: the first
   match in insertion order, if any.
   */
  function FindFirst(store: Store, id: string): (k: Option<nat>)
    ensures k.Some? ==> k.value < |store| && store[k.value].shortID == id
    ensures k.Some? ==> forall j :: 0 <= j < k.value ==> store[j].shortID != id
    ensures k.None? <==> !HasToken(store, id)
  {
    if |store| == 0 then None
    else if store[0].shortID == id then Some(0)
    else match FindFirst(store[1..], id)
      case None =>
        assert forall j :: 1 <= j < |store| ==> store[j] == store[1..][j - 1];
        None
      case Some(k) => Some(k + 1)
  }

  /**
   PostGenerateShortURL: build a document from the request URL, a fresh
   `randSeq(7)` token and the current time, insert it, and answer with the URL,
   the token and the short link.
   */
  function Create(store: Store, env: Env, url: string, now: int, draws: seq<int>, insertOk: bool)
    : (r: Result<Created, Error>)
    requires Tokens.ValidDraws(draws)
    requires !env.isTest ==> Tokens.ShortIDLength <= |draws|
    ensures r.Success? <==> insertOk
    ensures !insertOk ==> r == Failure(InsertDocumentFailed)
    ensures r.Success? ==>
      var d := Doc(url, r.value.response.shortID, now);
      && r.value.store == store + [d]
      && r.value.response == Response(url, ShortURL(env.baseURL, d.shortID), d.shortID)
      && (env.isTest ==> d.shortID == Tokens.TestToken)
      && (!env.isTest ==> Tokens.IsToken(d.shortID, Tokens.ShortIDLength))
  {
    var token := Tokens.Generate(Tokens.ShortIDLength, env.isTest, draws).value;
    var document := Doc(url, token, now);
    if !insertOk then Failure(InsertDocumentFailed)
    else Success(Created(store + [document], Response(url, ShortURL(env.baseURL, token), token)))
  }

  /**
   GetRedirectShortURL: an empty token is refused before the database is
   asked; otherwise the redirect target is the URL of the document FindOne
   returns, and a failed FindOne (no match, or no server) is an error.
   */
  function Resolve(store: Store, id: string, findOk: bool): (r: Result<string, Error>)
    ensures |id| == 0 ==> r == Failure(ShortIDNotSent)
    ensures r.Success? <==> |id| > 0 && findOk && HasToken(store, id)
    ensures r.Failure? && |id| > 0 ==> r.error == GetDocumentFailed
    ensures r.Success? ==> exists k :: 0 <= k < |store| && store[k].shortID == id && store[k].originalURL == r.value
  {
    if |id| == 0 then Failure(ShortIDNotSent)
    else if !findOk then Failure(GetDocumentFailed)
    else match FindFirst(store, id)
      case None => Failure(GetDocumentFailed)
      case Some(k) => Success(store[k].originalURL)
  }

  /** Appending a document never changes which earlier document matches first. */
  lemma FindFirstAppend(store: Store, d: Doc, id: string)
    ensures FindFirst(store + [d], id) ==
      if HasToken(store, id) then FindFirst(store, id)
      else if d.shortID == id then Some(|store|)
      else None
  {
    var s' := store + [d];
    assert forall j :: 0 <= j < |store| ==> s'[j] == store[j];
    if HasToken(store, id) {
      var k := FindFirst(store, id).value;
      assert s'[k].shortID == id;
      assert FindFirst(s', id) == Some(k);
    } else if d.shortID == id {
      assert s'[|store|].shortID == id;
      assert FindFirst(s', id) == Some(|store|);
    } else {
      assert forall j :: 0 <= j < |s'| ==> s'[j].shortID != id;
    }
  }

  /** A created link resolves to the created URL when its token was not already stored. */
  lemma CreateThenResolve(store: Store, env: Env, url: string, now: int, draws: seq<int>)
    requires Tokens.ValidDraws(draws)
    requires !env.isTest ==> Tokens.ShortIDLength <= |draws|
    requires !HasToken(store, Create(store, env, url, now, draws, true).value.response.shortID)
    ensures var c := Create(store, env, url, now, draws, true).value;
      Resolve(c.store, c.response.shortID, true) == Success(url)
  {
    var c := Create(store, env, url, now, draws, true).value;
    var d := Doc(url, c.response.shortID, now);
    FindFirstAppend(store, d, d.shortID);
  }

  /**
   Create is append-only: every token that resolved before resolves to the same
   URL afterwards, and so does every token other than the new one. In
   particular a new document whose token collides with a stored one is hidden
   behind the older document.
   */
  lemma CreateKeepsResolutions(store: Store, env: Env, url: string, now: int, draws: seq<int>, id: string, findOk: bool)
    requires Tokens.ValidDraws(draws)
    requires !env.isTest ==> Tokens.ShortIDLength <= |draws|
    requires HasToken(store, id) || id != Create(store, env, url, now, draws, true).value.response.shortID
    ensures Resolve(Create(store, env, url, now, draws, true).value.store, id, findOk) == Resolve(store, id, findOk)
  {
    var c := Create(store, env, url, now, draws, true).value;
    FindFirstAppend(store, Doc(url, c.response.shortID, now), id);
  }

  /**
   No uniqueness check: in test mode two creates store two documents under the
   same token "1234567", and that token resolves to the first URL, so the
   second link points at the first URL.
   */
  lemma TestModeCollision(store: Store, baseURL: string, url1: string, url2: string, t1: int, t2: int, draws: seq<int>)
    requires Tokens.ValidDraws(draws)
    requires !HasToken(store, Tokens.TestToken)
    ensures var env := Env(true, baseURL);
      var c1 := Create(store, env, url1, t1, draws, true).value;
      var c2 := Create(c1.store, env, url2, t2, draws, true).value;
      && c1.response.shortID == c2.response.shortID == "1234567"
      && c2.store == store + [Doc(url1, "1234567", t1), Doc(url2, "1234567", t2)]
      && Resolve(c2.store, c2.response.shortID, true) == Success(url1)
  {
    var env := Env(true, baseURL);
    var c1 := Create(store, env, url1, t1, draws, true).value;
    CreateThenResolve(store, env, url1, t1, draws);
    CreateKeepsResolutions(c1.store, env, url2, t2, draws, Tokens.TestToken, true);
  }

  /** No deduplication: creating a URL that is already stored adds another document for it. */
  lemma CreateDoesNotDeduplicate(store: Store, env: Env, url: string, now: int, draws: seq<int>)
    requires Tokens.ValidDraws(draws)
    requires !env.isTest ==> Tokens.ShortIDLength <= |draws|
    requires exists k :: 0 <= k < |store| && store[k].originalURL == url
    ensures var c := Create(store, env, url, now, draws, true).value;
      |c.store| == |store| + 1 && c.store[|store|].originalURL == url && c.store[|store|].lastModified == now
  {
  }

  /** A document is still live `ttl` seconds after its last modification and expired after. */
  predicate Live(d: Doc, ttl: int, now: int) {
    now - d.lastModified <= ttl
  }

  /**
   One pass of the store's TTL reaper at time `now`: it removes the documents
   whose age exceeds `ttl` and keeps the others, every copy of each, in
   order (`ReapAppend` states the order). The reaper is the database's,
   outside the handlers; Resolve never looks at the clock.
   */
  function Reap(store: Store, ttl: int, now: int): (r: Store)
    ensures |r| <= |store|
    ensures forall d :: d in r <==> d in store && Live(d, ttl, now)
    ensures forall d :: multiset(r)[d] == if Live(d, ttl, now) then multiset(store)[d] else 0
  {
    if |store| == 0 then []
    else
      assert store == [store[0]] + store[1..];
      (if Live(store[0], ttl, now) then [store[0]] else []) + Reap(store[1..], ttl, now)
  }

  /** The reaper works document by document, so it distributes over appending. */
  lemma {:induction false} ReapAppend(a: Store, b: Store, ttl: int, now: int)
    ensures Reap(a + b, ttl, now) == Reap(a, ttl, now) + Reap(b, ttl, now)
    decreases |a|
  {
    if |a| > 0 {
      assert (a + b)[1..] == a[1..] + b;
      ReapAppend(a[1..], b, ttl, now);
    } else {
      assert a + b == b;
    }
  }

  /** Reaping twice at the same time removes nothing more. */
  lemma {:induction false} ReapIdempotent(store: Store, ttl: int, now: int)
    ensures Reap(Reap(store, ttl, now), ttl, now) == Reap(store, ttl, now)
    decreases |store|
  {
    if |store| > 0 {
      var head := if Live(store[0], ttl, now) then [store[0]] else [];
      ReapAppend(head, Reap(store[1..], ttl, now), ttl, now);
      ReapIdempotent(store[1..], ttl, now);
      if Live(store[0], ttl, now) {
        assert Reap(head, ttl, now) == head by {
          assert head[1..] == [];
        }
      }
    }
  }

  /** After a reap, a token whose documents have all expired no longer resolves. */
  lemma ExpiredUnresolvable(store: Store, ttl: int, now: int, id: string, findOk: bool)
    requires forall k :: 0 <= k < |store| && store[k].shortID == id ==> !Live(store[k], ttl, now)
    ensures Resolve(Reap(store, ttl, now), id, findOk).Failure?
  {
    var r := Reap(store, ttl, now);
    forall j | 0 <= j < |r|
      ensures r[j].shortID != id
    {
      assert r[j] in store;
    }
  }

  /** After a reap, whatever resolves comes from a live document. */
  lemma ResolveAfterReapIsLive(store: Store, ttl: int, now: int, id: string, findOk: bool)
    requires Resolve(Reap(store, ttl, now), id, findOk).Success?
    ensures exists d :: (d in store && Live(d, ttl, now) && d.shortID == id
                         && d.originalURL == Resolve(Reap(store, ttl, now), id, findOk).value)
  {
    var r := Reap(store, ttl, now);
    var k :| 0 <= k < |r| && r[k].shortID == id && r[k].originalURL == Resolve(r, id, findOk).value;
    assert r[k] in r;
  }

  /** A reap never brings in a token that was not stored. */
  lemma ReapKeepsAbsent(store: Store, ttl: int, now: int, id: string)
    requires !HasToken(store, id)
    ensures !HasToken(Reap(store, ttl, now), id)
  {
    var kept := Reap(store, ttl, now);
    forall j | 0 <= j < |kept|
      ensures kept[j].shortID != id
    {
      assert kept[j] in store;
    }
  }

  /** A last document whose token is new resolves after a reap exactly while it is live. */
  lemma ReapLastDocument(store: Store, d: Doc, ttl: int, now: int)
    requires !HasToken(store, d.shortID) && |d.shortID| > 0
    ensures Resolve(Reap(store + [d], ttl, now), d.shortID, true) ==
      if Live(d, ttl, now) then Success(d.originalURL) else Failure(GetDocumentFailed)
  {
    ReapAppend(store, [d], ttl, now);
    ReapKeepsAbsent(store, ttl, now, d.shortID);
    var kept := Reap(store, ttl, now);
    if Live(d, ttl, now) {
      assert Reap([d], ttl, now) == [d];
      FindFirstAppend(kept, d, d.shortID);
    } else {
      assert Reap([d], ttl, now) == [];
      assert kept + [] == kept;
    }
  }

  /**
   The round trip within the TTL survives the reaper: a link created at time
   `now` with a token not already stored resolves to its URL after a reap at
   any `later` no more than `ttl` seconds on, and no longer resolves after a
   reap more than `ttl` seconds on.
   */
  lemma CreateReapResolve(store: Store, env: Env, url: string, now: int, draws: seq<int>, ttl: int, later: int)
    requires Tokens.ValidDraws(draws)
    requires !env.isTest ==> Tokens.ShortIDLength <= |draws|
    requires !HasToken(store, Create(store, env, url, now, draws, true).value.response.shortID)
    ensures var c := Create(store, env, url, now, draws, true).value;
      var r := Resolve(Reap(c.store, ttl, later), c.response.shortID, true);
      && (later - now <= ttl ==> r == Success(url))
      && (later - now > ttl ==> r == Failure(GetDocumentFailed))
  {
    var c := Create(store, env, url, now, draws, true).value;
    ReapLastDocument(store, Doc(url, c.response.shortID, now), ttl, later);
  }

  /**
   The end-to-end scenario of the handler tests, in test mode on an empty
   collection: create "https://www.google.com", then resolve its token, an
   unknown token and the empty token.
   */
  lemma TestModeScenario(baseURL: string, now: int, draws: seq<int>)
    requires Tokens.ValidDraws(draws)
    ensures var c := Create([], Env(true, baseURL), "https://www.google.com", now, draws, true);
      && c.Success?
      && c.value.response == Response("https://www.google.com", baseURL + "/s/1234567", "1234567")
      && Resolve(c.value.store, "1234567", true) == Success("https://www.google.com")
      && Resolve(c.value.store, "nosuch1", true) == Failure(GetDocumentFailed)
      && Resolve(c.value.store, "", true) == Failure(ShortIDNotSent)
  {
    var c := Create([], Env(true, baseURL), "https://www.google.com", now, draws, true).value;
    CreateThenResolve([], Env(true, baseURL), "https://www.google.com", now, draws);
    assert c.store[0].shortID != "nosuch1";
  }
}
