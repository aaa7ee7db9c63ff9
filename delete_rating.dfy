/** DELETE /api/delete-rating: removes a rating by id, whatever its status.
    The store's delete of an unknown id throws, which the route reports as
    a server error. */
module DeleteRatingRoute {
  import opened Tables
  import opened Records
  import opened Database

  method Delete(db: Db, id: string) returns (r: Response)
    requires db.Valid()
    modifies db
    ensures db.Valid()
    ensures db.bookings == old(db.bookings) && db.promos == old(db.promos)
    ensures id == "" ==> r == Response(400, Error("Rating ID is required")) && db.ratings == old(db.ratings)
    ensures id != "" && IndexOf(old(db.ratings), RatingKey, id).None? ==>
      r == Response(500, Error("Gagal menghapus rating")) && db.ratings == old(db.ratings)
    ensures id != "" && IndexOf(old(db.ratings), RatingKey, id).Some? ==>
      && r == Response(200, Done("Rating berhasil dihapus"))
      && db.ratings == RemoveAt(old(db.ratings), IndexOf(old(db.ratings), RatingKey, id).value)
  {
    if id == "" {
      return Response(400, Error("Rating ID is required"));
    }
    var ok := db.DeleteRating(id);
    if !ok {
      return Response(500, Error("Gagal menghapus rating"));
    }
    r := Response(200, Done("Rating berhasil dihapus"));
  }

  /** Removing the row with a given id from a table of unique ids removes
      that rating and nothing else, and no row with that id is left. */
  lemma {:induction false} RemovesExactlyThatRating(rs: seq<Rating>, id: string)
    requires UniqueKeys(rs, RatingKey)
    requires IndexOf(rs, RatingKey, id).Some?
    ensures var i := IndexOf(rs, RatingKey, id).value;
      multiset(RemoveAt(rs, i)) == multiset(rs) - multiset{rs[i]}
    ensures forall x :: x in RemoveAt(rs, IndexOf(rs, RatingKey, id).value) ==> x.id != id
  {
    var i := IndexOf(rs, RatingKey, id).value;
    assert rs == rs[..i] + [rs[i]] + rs[i + 1..];
    assert RemoveAt(rs, i) == rs[..i] + rs[i + 1..];
    forall x | x in RemoveAt(rs, i)
      ensures x.id != id
    {
      var j :| 0 <= j < |RemoveAt(rs, i)| && RemoveAt(rs, i)[j] == x;
      var k := if j < i then j else j + 1;
      assert rs[k] == x && k != i;
    }
  }
}
