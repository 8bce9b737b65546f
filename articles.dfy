/**
 * The list rules of the article routes: add unless the id exists, replace
 * the first article with a given id, delete every article with a given id,
 * and the save-computer upsert. The list is what the articles file holds.
 */
module Articles {
  import opened Json
  import opened Sequences

  /** A stored article: its `id` property (`JUndefined` when it has none) and all its other properties. */
  datatype Article = Article(id: Json, rest: Json)

  datatype StoreOutcome = Saved | DuplicateId | NotFound

  predicate HasId(articles: seq<Article>, id: Json) {
    exists i :: 0 <= i < |articles| && articles[i].id == id
  }

  predicate UniqueIds(articles: seq<Article>) {
    forall i, j :: 0 <= i < j < |articles| ==> articles[i].id != articles[j].id
  }

  /** `articles.findIndex(a => a.id === id)`. */
  function FindIndexById(articles: seq<Article>, id: Json): (k: int)
    ensures -1 <= k < |articles|
    ensures k == -1 <==> !HasId(articles, id)
    ensures 0 <= k ==> articles[k].id == id && forall i :: 0 <= i < k ==> articles[i].id != id
  {
    if articles == [] then -1
    else if articles[0].id == id then 0
    else
      var k := FindIndexById(articles[1..], id);
      if k == -1 then -1 else k + 1
  }

  /** `articles.filter(a => a.id !== id)`. */
  function WithoutId(articles: seq<Article>, id: Json): (r: seq<Article>)
    ensures |r| <= |articles|
    ensures forall a :: a in r <==> a in articles && a.id != id
    ensures |r| == |articles| <==> !HasId(articles, id)
    ensures !HasId(articles, id) ==> r == articles
  {
    if articles == [] then []
    else
      var r := WithoutId(articles[1..], id);
      assert HasId(articles, id) <==> articles[0].id == id || HasId(articles[1..], id) by {
        if HasId(articles[1..], id) {
          var i :| 0 <= i < |articles[1..]| && articles[1..][i].id == id;
          assert articles[i + 1].id == id;
        }
      }
      if articles[0].id != id then [articles[0]] + r else r
  }

  /** The filter keeps the remaining articles in their order. */
  lemma {:induction false} WithoutIdKeepsOrder(articles: seq<Article>, id: Json)
    ensures IsSubsequence(WithoutId(articles, id), articles)
    decreases |articles|
  {
    if articles != [] {
      WithoutIdKeepsOrder(articles[1..], id);
      var r := WithoutId(articles[1..], id);
      if articles[0].id != id {
        assert ([articles[0]] + r)[1..] == r;
      } else if r != [] {
        assert r[0] in r;
      }
    }
  }

  /** The filter keeps every article with another id as many times as it occurs. */
  lemma {:induction false} WithoutIdKeepsCounts(articles: seq<Article>, id: Json)
    ensures forall a: Article :: a.id != id ==> multiset(WithoutId(articles, id))[a] == multiset(articles)[a]
    decreases |articles|
  {
    if articles != [] {
      WithoutIdKeepsCounts(articles[1..], id);
      var r := WithoutId(articles[1..], id);
      assert articles == [articles[0]] + articles[1..];
      assert multiset(articles) == multiset{articles[0]} + multiset(articles[1..]);
      if articles[0].id != id {
        assert multiset([articles[0]] + r) == multiset{articles[0]} + multiset(r);
      }
    }
  }

  /**
   * The save-computer upsert: the first article with the same id is
   * replaced; without one the article is appended. The list grows by at most
   * one, every other position keeps its article, and the saved article ends up in it.
   */
  function Upserted(articles: seq<Article>, a: Article): (r: seq<Article>)
    ensures |articles| <= |r| <= |articles| + 1
    ensures |r| == |articles| <==> HasId(articles, a.id)
    ensures a in r
    ensures forall i :: 0 <= i < |articles| && i != FindIndexById(articles, a.id) ==> r[i] == articles[i]
    ensures HasId(articles, a.id) ==> r[FindIndexById(articles, a.id)] == a
    ensures !HasId(articles, a.id) ==> r[|articles|] == a
  {
    var k := FindIndexById(articles, a.id);
    if k >= 0 then
      assert articles[k := a][k] == a;
      articles[k := a]
    else
      assert (articles + [a])[|articles|] == a;
      articles + [a]
  }

  /** Looking up the saved id in the upserted list finds the saved article. */
  lemma UpsertThenFind(articles: seq<Article>, a: Article)
    ensures FindIndexById(Upserted(articles, a), a.id) >= 0
    ensures Upserted(articles, a)[FindIndexById(Upserted(articles, a), a.id)] == a
  {
    var r := Upserted(articles, a);
    var k := FindIndexById(articles, a.id);
    if k >= 0 {
      assert r[k].id == a.id;
    } else {
      assert r[|articles|].id == a.id;
    }
  }

  /** Appending an article whose id is absent keeps ids unique. */
  lemma AddKeepsIdsUnique(articles: seq<Article>, a: Article)
    requires UniqueIds(articles) && !HasId(articles, a.id)
    ensures UniqueIds(articles + [a])
  {
    var r := articles + [a];
    forall i, j | 0 <= i < j < |r| ensures r[i].id != r[j].id {
      if j == |articles| {
        assert r[i] == articles[i];
      }
    }
  }

  /** The upsert keeps ids unique. */
  lemma UpsertKeepsIdsUnique(articles: seq<Article>, a: Article)
    requires UniqueIds(articles)
    ensures UniqueIds(Upserted(articles, a))
  {
    if !HasId(articles, a.id) {
      AddKeepsIdsUnique(articles, a);
    }
  }

  /** Deleting keeps ids unique, and no article with that id remains. */
  lemma DeleteKeepsIdsUnique(articles: seq<Article>, id: Json)
    requires UniqueIds(articles)
    ensures UniqueIds(WithoutId(articles, id))
    ensures !HasId(WithoutId(articles, id), id)
    decreases |articles|
  {
    var r := WithoutId(articles, id);
    if articles != [] {
      DeleteKeepsIdsUnique(articles[1..], id);
      var rest := WithoutId(articles[1..], id);
      if articles[0].id != id {
        forall j | 0 <= j < |rest| ensures rest[j].id != articles[0].id {
          assert rest[j] in rest;
          var m :| 0 <= m < |articles[1..]| && articles[1..][m] == rest[j];
          assert articles[m + 1] == rest[j];
        }
        assert r == [articles[0]] + rest;
      }
    }
  }

  /**
   * The article file's list and the handlers that change it in place: add
   * (push), update (index assignment), delete (filter) and save-computer.
   */
  class ArticleStore {
    var articles: seq<Article>

    constructor(articles: seq<Article>)
      ensures this.articles == articles
    {
      this.articles := articles;
    }

    /** POST: refuse an id already present (400), otherwise append. */
    method Add(a: Article) returns (outcome: StoreOutcome)
      modifies this
      ensures HasId(old(articles), a.id) ==> outcome == DuplicateId && articles == old(articles)
      ensures !HasId(old(articles), a.id) ==> outcome == Saved && articles == old(articles) + [a]
    {
      if FindIndexById(articles, a.id) != -1 {
        return DuplicateId;
      }
      articles := articles + [a];
      outcome := Saved;
    }

    /**
     * PUT with the id taken from the path (always a string, so an article
     * whose id is a number is never found): replace the first match, or 404.
     */
    method Update(id: string, updated: Article) returns (outcome: StoreOutcome)
      modifies this
      ensures !HasId(old(articles), JStr(id)) ==> outcome == NotFound && articles == old(articles)
      ensures HasId(old(articles), JStr(id)) ==>
        && outcome == Saved
        && |articles| == |old(articles)|
        && articles[FindIndexById(old(articles), JStr(id))] == updated
        && forall i :: 0 <= i < |articles| && i != FindIndexById(old(articles), JStr(id)) ==>
             articles[i] == old(articles)[i]
    {
      var idx := FindIndexById(articles, JStr(id));
      if idx == -1 {
        return NotFound;
      }
      articles := articles[idx := updated];
      outcome := Saved;
    }

    /** DELETE: drop every article with the id; 404 when none was dropped. */
    method Delete(id: string) returns (outcome: StoreOutcome)
      modifies this
      ensures !HasId(old(articles), JStr(id)) ==> outcome == NotFound && articles == old(articles)
      ensures HasId(old(articles), JStr(id)) ==>
        outcome == Saved && articles == WithoutId(old(articles), JStr(id))
    {
      var kept := WithoutId(articles, JStr(id));
      if |kept| == |articles| {
        return NotFound;
      }
      articles := kept;
      outcome := Saved;
    }

    /**
     * POST save-computer: a computer without a truthy id gets the clock
     * reading as its id, then is upserted.
     */
    method SaveComputer(computer: Article, nowText: string) returns (saved: Article)
      modifies this
      ensures saved.id == if Truthy(computer.id) then computer.id else JStr(nowText)
      ensures saved.rest == computer.rest
      ensures articles == Upserted(old(articles), saved)
    {
      saved := computer;
      if !Truthy(saved.id) {
        saved := saved.(id := JStr(nowText));
      }
      var existing := FindIndexById(articles, saved.id);
      if existing >= 0 {
        articles := articles[existing := saved];
      } else {
        articles := articles + [saved];
      }
    }
  }
}
