/**
 * The places repository of the Android client (PlacesRepository.kt): the local
 * store of places, reviews and per-category content hashes, and the three
 * operations that reconcile it with the server: the first-launch bootstrap,
 * the hash-checked refresh of one category, and the favorite toggle.
 */
module Places {
  import opened Common

  datatype Category = Sights | Restaurants | Hotels

  type PlaceId = int
  type ReviewId = int

  /** A review as the server sends it and the review table stores it. */
  datatype Review = Review(id: ReviewId, placeId: PlaceId, comment: string)

  /** A place as the server sends it; `details` stands for its display fields. */
  datatype PlaceDto = PlaceDto(id: PlaceId, details: string, reviews: Option<seq<Review>>)

  /** A row of the place table. */
  datatype PlaceEntity = PlaceEntity(id: PlaceId, category: Category, isFavorite: bool, details: string)

  /** The full catalog the bootstrap downloads, with one content hash per category. */
  datatype AllPlacesDto = AllPlacesDto(
    attractions: seq<PlaceDto>, restaurants: seq<PlaceDto>, accommodations: seq<PlaceDto>,
    attractionsHash: string, restaurantsHash: string, accommodationsHash: string)

  /** The places of one category with the server's current hash for it. */
  datatype CategoryDto = CategoryDto(data: seq<PlaceDto>, hash: string)

  // ---------------------------------------------------------------------------
  // Specification functions over the tables
  // ---------------------------------------------------------------------------

  /** The reviews a place carries; a missing list adds none. */
  function ReviewsOf(p: PlaceDto): seq<Review>
  {
    if p.reviews.Some? then p.reviews.value else []
  }

  /** The reviews of `ps`, place after place. */
  function AllReviews(ps: seq<PlaceDto>): seq<Review>
  {
    if ps == [] then [] else AllReviews(ps[..|ps| - 1]) + ReviewsOf(ps[|ps| - 1])
  }

  /** A downloaded place as a row of category `c`, favorite iff its id is among `favorites`. */
  function ToEntity(p: PlaceDto, c: Category, favorites: set<PlaceId>): PlaceEntity
  {
    PlaceEntity(p.id, c, p.id in favorites, p.details)
  }

  function Entities(ps: seq<PlaceDto>, c: Category, favorites: set<PlaceId>): seq<PlaceEntity>
  {
    seq(|ps|, k requires 0 <= k < |ps| => ToEntity(ps[k], c, favorites))
  }

  /** The key of a place row: its place id. */
  function PlaceKey(e: PlaceEntity): PlaceId
  {
    e.id
  }

  /** The key of a review row: its review id. */
  function ReviewKey(r: Review): ReviewId
  {
    r.id
  }

  /** The keys of `rows`. */
  ghost function KeySet<V>(rows: seq<V>, key: V -> int): set<int>
  {
    set v | v in rows :: key(v)
  }

  /** Inserting rows into a table keyed by `key`: a row replaces the one with the same key. */
  function Upsert<V>(table: map<int, V>, rows: seq<V>, key: V -> int): map<int, V>
    decreases |rows|
  {
    if rows == [] then table else Upsert(table[key(rows[0]) := rows[0]], rows[1..], key)
  }

  /** The place table without the rows of category `c`. */
  function DeleteCategory(table: map<PlaceId, PlaceEntity>, c: Category): map<PlaceId, PlaceEntity>
  {
    map k | k in table && table[k].category != c :: table[k]
  }

  /** The rows of category `c`: what the live query of a category returns. */
  function CategoryRows(table: map<PlaceId, PlaceEntity>, c: Category): map<PlaceId, PlaceEntity>
  {
    map k | k in table && table[k].category == c :: table[k]
  }

  /** The place table right after the bootstrap: the three lists inserted into an empty table. */
  function BootstrapTable(data: AllPlacesDto, favorites: set<PlaceId>): map<PlaceId, PlaceEntity>
  {
    Upsert(Upsert(Upsert(map[],
      Entities(data.attractions, Sights, favorites), PlaceKey),
      Entities(data.restaurants, Restaurants, favorites), PlaceKey),
      Entities(data.accommodations, Hotels, favorites), PlaceKey)
  }

  /** The place table after a changed-hash refresh of category `c`. */
  function RefreshedTable(table: map<PlaceId, PlaceEntity>, c: Category, ps: seq<PlaceDto>, favorites: set<PlaceId>): map<PlaceId, PlaceEntity>
  {
    Upsert(DeleteCategory(table, c), Entities(ps, c, favorites), PlaceKey)
  }

  /** Kotlin's `isBlank`: empty or only whitespace (the ASCII whitespace characters are modelled). */
  predicate IsBlank(s: string)
  {
    forall k :: 0 <= k < |s| ==> s[k] in {' ', '\t', '\n', '\r', '\U{000B}', '\U{000C}'}
  }

  /** Every row of `table` is stored under its own key. */
  ghost predicate KeyedBy<V>(table: map<int, V>, key: V -> int)
  {
    forall k :: k in table ==> key(table[k]) == k
  }

  // ---------------------------------------------------------------------------
  // Lemmas: what the table operations mean
  // ---------------------------------------------------------------------------

  /**
   * After inserting `rows`, the table holds the old keys and the inserted keys;
   * an inserted key holds the last row inserted with it; every other key keeps
   * its row.
   */
  lemma {:induction false} UpsertSpec<V>(table: map<int, V>, rows: seq<V>, key: V -> int)
    ensures Upsert(table, rows, key).Keys == table.Keys + KeySet(rows, key)
    ensures forall k :: k in table && k !in KeySet(rows, key) ==> Upsert(table, rows, key)[k] == table[k]
    ensures forall k :: k in KeySet(rows, key) ==>
              Upsert(table, rows, key)[k] in rows && key(Upsert(table, rows, key)[k]) == k
    ensures forall j :: 0 <= j < |rows| && (forall j' :: j < j' < |rows| ==> key(rows[j']) != key(rows[j]))
                        ==> Upsert(table, rows, key)[key(rows[j])] == rows[j]
    decreases |rows|
  {
    if rows != [] {
      var t := table[key(rows[0]) := rows[0]];
      UpsertSpec(t, rows[1..], key);
      assert KeySet(rows, key) == {key(rows[0])} + KeySet(rows[1..], key) by {
        assert forall v :: v in rows <==> v == rows[0] || v in rows[1..];
      }
      forall j | 0 <= j < |rows| && (forall j' :: j < j' < |rows| ==> key(rows[j']) != key(rows[j]))
        ensures Upsert(table, rows, key)[key(rows[j])] == rows[j]
      {
        if j > 0 {
          assert rows[j] == rows[1..][j - 1];
          forall j' | j - 1 < j' < |rows| - 1 ensures key(rows[1..][j']) != key(rows[1..][j - 1]) {
            assert rows[1..][j'] == rows[j' + 1];
          }
        } else {
          assert key(rows[0]) !in KeySet(rows[1..], key) by {
            forall v | v in rows[1..] ensures key(v) != key(rows[0]) {
              var i :| 0 <= i < |rows[1..]| && rows[1..][i] == v;
              assert rows[i + 1] == v;
            }
          }
        }
      }
    }
  }

  /** Upserting rows keeps every row stored under its own key. */
  lemma {:induction false} UpsertKeyedBy<V>(table: map<int, V>, rows: seq<V>, key: V -> int)
    requires KeyedBy(table, key)
    ensures KeyedBy(Upsert(table, rows, key), key)
  {
    UpsertSpec(table, rows, key);
  }

  lemma EntitiesIds(ps: seq<PlaceDto>, c: Category, favorites: set<PlaceId>)
    ensures KeySet(Entities(ps, c, favorites), PlaceKey) == set p | p in ps :: p.id
  {
    var es := Entities(ps, c, favorites);
    forall x | x in set p | p in ps :: p.id ensures x in KeySet(es, PlaceKey) {
      var p :| p in ps && p.id == x;
      var k :| 0 <= k < |ps| && ps[k] == p;
      assert es[k] in es && PlaceKey(es[k]) == x;
    }
  }

  /** Every row built from a download is one of its places, tagged `c` and flagged from the snapshot. */
  lemma EntitiesFrom(ps: seq<PlaceDto>, c: Category, favorites: set<PlaceId>, e: PlaceEntity)
    requires e in Entities(ps, c, favorites)
    ensures exists p :: p in ps && e == ToEntity(p, c, favorites)
  {
    var es := Entities(ps, c, favorites);
    var k :| 0 <= k < |es| && es[k] == e;
    assert ps[k] in ps;
  }

  /**
   * After the bootstrap the place table holds exactly the catalog's ids; each row
   * is a catalog place tagged with the category of the list it came from, and it
   * is a favorite exactly when its id is in the favorites snapshot.
   */
  lemma BootstrapTableSpec(data: AllPlacesDto, favorites: set<PlaceId>)
    ensures var t := BootstrapTable(data, favorites);
      && t.Keys == (set p | p in data.attractions :: p.id)
                 + (set p | p in data.restaurants :: p.id)
                 + (set p | p in data.accommodations :: p.id)
      && KeyedBy(t, PlaceKey)
      && (forall k :: k in t ==> (t[k].isFavorite <==> k in favorites))
      && (forall k :: k in t ==>
            || (t[k].category == Sights && exists p :: p in data.attractions && t[k] == ToEntity(p, Sights, favorites))
            || (t[k].category == Restaurants && exists p :: p in data.restaurants && t[k] == ToEntity(p, Restaurants, favorites))
            || (t[k].category == Hotels && exists p :: p in data.accommodations && t[k] == ToEntity(p, Hotels, favorites)))
  {
    var e1 := Entities(data.attractions, Sights, favorites);
    var e2 := Entities(data.restaurants, Restaurants, favorites);
    var e3 := Entities(data.accommodations, Hotels, favorites);
    var t1 := Upsert(map[], e1, PlaceKey);
    var t2 := Upsert(t1, e2, PlaceKey);
    var t := Upsert(t2, e3, PlaceKey);
    UpsertSpec(map[], e1, PlaceKey);
    UpsertSpec(t1, e2, PlaceKey);
    UpsertSpec(t2, e3, PlaceKey);
    EntitiesIds(data.attractions, Sights, favorites);
    EntitiesIds(data.restaurants, Restaurants, favorites);
    EntitiesIds(data.accommodations, Hotels, favorites);
    forall k | k in t
      ensures t[k].id == k
      ensures t[k].isFavorite <==> k in favorites
      ensures || (t[k].category == Sights && exists p :: p in data.attractions && t[k] == ToEntity(p, Sights, favorites))
              || (t[k].category == Restaurants && exists p :: p in data.restaurants && t[k] == ToEntity(p, Restaurants, favorites))
              || (t[k].category == Hotels && exists p :: p in data.accommodations && t[k] == ToEntity(p, Hotels, favorites))
    {
      if k in KeySet(e3, PlaceKey) {
        EntitiesFrom(data.accommodations, Hotels, favorites, t[k]);
      } else if k in KeySet(e2, PlaceKey) {
        EntitiesFrom(data.restaurants, Restaurants, favorites, t[k]);
      } else {
        EntitiesFrom(data.attractions, Sights, favorites, t[k]);
      }
    }
  }

  /**
   * A changed-hash refresh of `c` leaves exactly the other categories' rows and
   * the downloaded ids. Each downloaded id holds a downloaded place tagged `c`,
   * favorite exactly when in the snapshot. No old row of `c` survives, and the
   * rows of other categories keep their content unless a download reuses the id.
   */
  lemma RefreshedTableSpec(table: map<PlaceId, PlaceEntity>, c: Category, ps: seq<PlaceDto>, favorites: set<PlaceId>)
    requires KeyedBy(table, PlaceKey)
    ensures var t := RefreshedTable(table, c, ps, favorites);
      var downloaded := set p | p in ps :: p.id;
      && t.Keys == DeleteCategory(table, c).Keys + downloaded
      && KeyedBy(t, PlaceKey)
      && (forall k :: k in t && t[k].category == c ==> k in downloaded)
      && (forall k :: k in downloaded ==>
            && t[k].category == c
            && (t[k].isFavorite <==> k in favorites)
            && exists p :: p in ps && t[k] == ToEntity(p, c, favorites))
      && (forall k :: k in table && table[k].category != c && k !in downloaded ==> t[k] == table[k])
  {
    var es := Entities(ps, c, favorites);
    var d := DeleteCategory(table, c);
    UpsertSpec(d, es, PlaceKey);
    EntitiesIds(ps, c, favorites);
    var t := Upsert(d, es, PlaceKey);
    forall k | k in KeySet(es, PlaceKey) ensures exists p :: p in ps && t[k] == ToEntity(p, c, favorites) {
      EntitiesFrom(ps, c, favorites, t[k]);
    }
  }

  /** The review table after a refresh holds the new places' reviews only: every review of another place is gone. */
  lemma {:induction false} AllReviewsBelongTo(ps: seq<PlaceDto>, r: Review)
    requires r in AllReviews(ps)
    ensures exists p :: p in ps && r in ReviewsOf(p)
  {
    var init := ps[..|ps| - 1];
    if r in AllReviews(init) {
      AllReviewsBelongTo(init, r);
      var p :| p in init && r in ReviewsOf(p);
      assert p in ps;
    } else {
      assert ps[|ps| - 1] in ps;
    }
  }

  /**
   * The review table a refresh leaves behind: exactly the review ids of the
   * downloaded places, each holding one of their reviews under its own id. A
   * review that no downloaded place carries, such as a review of a place of
   * another category, is no longer in the table.
   */
  lemma RefreshedReviewsSpec(ps: seq<PlaceDto>)
    ensures var t := Upsert(map[], AllReviews(ps), ReviewKey);
      && t.Keys == KeySet(AllReviews(ps), ReviewKey)
      && KeyedBy(t, ReviewKey)
      && (forall k :: k in t ==> exists p :: p in ps && t[k] in ReviewsOf(p))
  {
    var t := Upsert(map[], AllReviews(ps), ReviewKey);
    UpsertSpec(map[], AllReviews(ps), ReviewKey);
    forall k | k in t ensures exists p :: p in ps && t[k] in ReviewsOf(p) {
      AllReviewsBelongTo(ps, t[k]);
    }
  }

  // ---------------------------------------------------------------------------
  // The repository over the three tables
  // ---------------------------------------------------------------------------

  class PlacesRepository {
    /** The place table, keyed by place id. */
    var places: map<PlaceId, PlaceEntity>
    /** The review table, keyed by review id. */
    var reviews: map<ReviewId, Review>
    /** The hash table: one content hash per category. */
    var hashes: map<Category, string>

    ghost predicate Valid()
      reads this
    {
      KeyedBy(places, PlaceKey) && KeyedBy(reviews, ReviewKey)
    }

    /** The repository over the tables the database holds (all empty on a new install). */
    constructor (storedPlaces: map<PlaceId, PlaceEntity>, storedReviews: map<ReviewId, Review>, storedHashes: map<Category, string>)
      requires KeyedBy(storedPlaces, PlaceKey) && KeyedBy(storedReviews, ReviewKey)
      ensures Valid()
      ensures places == storedPlaces && reviews == storedReviews && hashes == storedHashes
    {
      places, reviews, hashes := storedPlaces, storedReviews, storedHashes;
    }

    /** The loop that gathers the reviews of the downloaded places, in order. */
    static method CollectReviews(ps: seq<PlaceDto>) returns (rs: seq<Review>)
      ensures rs == AllReviews(ps)
    {
      rs := [];
      for i := 0 to |ps|
        invariant rs == AllReviews(ps[..i])
      {
        assert ps[..i + 1][..i] == ps[..i];
        rs := rs + ReviewsOf(ps[i]);
      }
      assert ps[..|ps|] == ps;
    }

    /** `insertPlaces`: each row replaces the row with the same id. */
    method InsertPlaces(es: seq<PlaceEntity>)
      requires Valid()
      modifies this`places
      ensures Valid()
      ensures places == Upsert(old(places), es, PlaceKey)
    {
      UpsertKeyedBy(places, es, PlaceKey);
      places := Upsert(places, es, PlaceKey);
    }

    /** `insertReviews`: each review replaces the review with the same id. */
    method InsertReviews(rs: seq<Review>)
      requires Valid()
      modifies this`reviews
      ensures Valid()
      ensures reviews == Upsert(old(reviews), rs, ReviewKey)
    {
      UpsertKeyedBy(reviews, rs, ReviewKey);
      reviews := Upsert(reviews, rs, ReviewKey);
    }

    /**
     * `downloadAllDataIfFirstTime`. Runs only when the hash table is empty.
     * `favorites` is the favorites response (None when the call failed or
     * returned no data); `catalog` is the outcome of the catalog call. On success
     * the place, review and hash tables are replaced by the catalog's content.
     */
    method DownloadAllDataIfFirstTime(favorites: Option<seq<PlaceId>>, catalog: Result<AllPlacesDto, string>)
      returns (emitted: seq<Resource<string>>)
      requires Valid()
      modifies this
      ensures Valid()
      ensures |old(hashes)| != 0 || catalog.Err? ==>
        places == old(places) && reviews == old(reviews) && hashes == old(hashes)
      ensures |old(hashes)| != 0 ==> emitted == []
      ensures |old(hashes)| == 0 && catalog.Err? ==> emitted == [Error(catalog.error)]
      ensures |old(hashes)| == 0 && catalog.Ok? ==>
        var data := catalog.value;
        var favoriteIds := if favorites.Some? then set id | id in favorites.value else {};
        && emitted == [Success(GreatSuccess)]
        && places == BootstrapTable(data, favoriteIds)
        && reviews == Upsert(map[], AllReviews(data.attractions) + AllReviews(data.restaurants) + AllReviews(data.accommodations), ReviewKey)
        && hashes == map[Sights := data.attractionsHash, Restaurants := data.restaurantsHash, Hotels := data.accommodationsHash]
    {
      emitted := [];
      if |hashes| == 0 {
        match catalog {
          case Err(message) =>
            emitted := [Error(message)];
          case Ok(data) =>
            var favoriteIds := if favorites.Some? then set id | id in favorites.value else {};
            var sightsEntities := Entities(data.attractions, Sights, favoriteIds);
            var restaurantsEntities := Entities(data.restaurants, Restaurants, favoriteIds);
            var hotelsEntities := Entities(data.accommodations, Hotels, favoriteIds);
            var sightsReviews := CollectReviews(data.attractions);
            var restaurantsReviews := CollectReviews(data.restaurants);
            var hotelsReviews := CollectReviews(data.accommodations);

            // update places
            places := map[];
            InsertPlaces(sightsEntities);
            InsertPlaces(restaurantsEntities);
            InsertPlaces(hotelsEntities);

            // update reviews
            reviews := map[];
            InsertReviews(sightsReviews + restaurantsReviews + hotelsReviews);

            // update hashes
            hashes := hashes[Sights := data.attractionsHash];
            hashes := hashes[Restaurants := data.restaurantsHash];
            hashes := hashes[Hotels := data.accommodationsHash];

            emitted := [Success(GreatSuccess)];
        }
      }
    }

    /**
     * `getPlacesByCategory`. Emits the cached rows of `c` when its stored hash is
     * not blank. `favorites` is the snapshot of favorite place ids, `response`
     * the server's answer (Ok(None) when it carried no data). Only a successful
     * answer whose hash differs from the stored one rewrites the tables: the
     * category's hash and places are replaced and the whole review table is
     * rewritten with the new places' reviews.
     */
    method GetPlacesByCategory(c: Category, favorites: set<PlaceId>, response: Result<Option<CategoryDto>, string>)
      returns (emitted: seq<Resource<map<PlaceId, PlaceEntity>>>)
      requires Valid()
      modifies this
      ensures Valid()
      ensures c !in old(hashes) ==> emitted == [] && places == old(places) && reviews == old(reviews) && hashes == old(hashes)
      ensures c in old(hashes) ==>
        emitted == (if IsBlank(old(hashes)[c]) then [] else [Success(CategoryRows(old(places), c))])
      ensures c in old(hashes) && (response.Err? || response.value.None? || response.value.value.hash == old(hashes)[c]) ==>
        places == old(places) && reviews == old(reviews) && hashes == old(hashes)
      ensures c in old(hashes) && response.Ok? && response.value.Some? && response.value.value.hash != old(hashes)[c] ==>
        var dto := response.value.value;
        && hashes == old(hashes)[c := dto.hash]
        && places == RefreshedTable(old(places), c, dto.data, favorites)
        && reviews == Upsert(map[], AllReviews(dto.data), ReviewKey)
    {
      emitted := [];
      if c !in hashes {
        return;
      }
      var hash := hashes[c];
      if !IsBlank(hash) {
        emitted := [Success(CategoryRows(places, c))];
      }
      if response.Ok? && response.value.Some? {
        var categoryDto := response.value.value;
        if hash != categoryDto.hash {
          // update places
          hashes := hashes[c := categoryDto.hash];
          places := DeleteCategory(places, c);
          InsertPlaces(Entities(categoryDto.data, c, favorites));

          // update reviews
          var reviewsEntities := CollectReviews(categoryDto.data);
          reviews := map[];
          InsertReviews(reviewsEntities);
        }
      }
    }

    /** `setFavorite`: sets the flag of one place and changes nothing else. */
    method SetFavorite(placeId: PlaceId, isFavorite: bool)
      requires Valid()
      modifies this`places
      ensures Valid()
      ensures places.Keys == old(places).Keys
      ensures placeId in places ==> places[placeId] == old(places)[placeId].(isFavorite := isFavorite)
      ensures forall k :: k in places && k != placeId ==> places[k] == old(places)[k]
    {
      if placeId in places {
        places := places[placeId := places[placeId].(isFavorite := isFavorite)];
      }
    }
  }

  /** The message of the bootstrap's success response (the `great_success` string resource). */
  const GreatSuccess: string := "great_success"
}
