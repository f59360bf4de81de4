/**
 * The HTTP handlers of the Shop resource as methods on the store that
 * holds the collection. A handler either responds (a status and a body)
 * or passes an error on to the error middleware. In `replace`, `update`
 * and `remove`, `target` is the shop the request context resolved before
 * the handler ran.
 */
module ShopController {
  import opened Wrappers
  import opened ShopModel
  import opened ShopValidation

  datatype Payload = One(item: Json) | Many(items: seq<Json>) | NoContent

  datatype Outcome = Respond(status: int, payload: Payload) | Next(error: Failure)

  const OK: int := 200
  const CREATED: int := 201
  const NO_CONTENT: int := 204

  class ShopStore {
    /** The collection, in the store's natural order. */
    var docs: seq<Shop>

    ghost predicate Valid()
      reads this
    {
      WellFormed(docs)
    }

    constructor ()
      ensures Valid() && AllConform(docs) && docs == []
    {
      docs := [];
    }

    /** GET /v1/shops/:shopId. */
    method Get(shopId: Id, isObjectId: Id -> bool, castId: Id -> Id) returns (out: Outcome)
      ensures ShopModel.Get(docs, shopId, isObjectId, castId).Success? ==>
        out == Respond(OK, One(Projection(ShopModel.Get(docs, shopId, isObjectId, castId).value)))
      ensures !isObjectId(shopId) || !HasId(docs, castId(shopId)) ==> out == Next(NotFound)
    {
      var found := ShopModel.Get(docs, shopId, isObjectId, castId);
      if found.Success? {
        var shown := Transform(found.value);
        out := Respond(OK, One(shown));
      } else {
        out := Next(found.error);
      }
    }

    /** POST /v1/shops: a new document from the body, saved under a fresh
        id supplied by the store at the time `now`. */
    method Create(body: Body, newId: Id, now: int) returns (out: Outcome)
      requires Valid() && !HasId(docs, newId)
      modifies this
      ensures Valid()
      ensures old(AllConform(docs)) ==> AllConform(docs)
      ensures var saved := SaveNew(old(docs), Cast(body), newId, now);
        match saved
        case Success(s) => docs == old(docs) + [s] && out == Respond(CREATED, One(Projection(s)))
        case Failure(e) => docs == old(docs) && out == Next(e)
    {
      var d := Cast(body);
      var saved := SaveNew(docs, d, newId, now);
      if saved.Success? {
        SaveNewKeepsInvariants(docs, d, newId, now);
        docs := docs + [saved.value];
        var shown := Transform(saved.value);
        out := Respond(CREATED, One(shown));
      } else {
        out := Next(saved.error);
      }
    }

    /** PUT /v1/shops/:shopId. The request has passed `replaceShop`. As no
        validator runs on the write, a stored shop keeps the length rules
        outright, and conforms in full exactly when its email has the
        schema's shape. */
    method Replace(target: Shop, body: Body, params: Params, isEmail: string -> bool, now: int, clears: bool)
      returns (out: Outcome)
      requires Valid() && target in docs
      requires ReplaceShop(body, params, isEmail)
      modifies this
      ensures Valid()
      ensures var written := ReplaceResult(old(docs), target, body, now, clears);
        match written
        case Success(s) =>
          && docs == Overwrite(old(docs), s)
          && (old(AllConform(docs)) ==> forall k :: 0 <= k < |docs| ==> MeetsLengthRules(docs[k]))
          && (old(AllConform(docs)) ==> (AllConform(docs) <==> EmailShape(s.email)))
          && out == Respond(OK, One(Projection(s)))
        case Failure(e) => docs == old(docs) && out == Next(e)
    {
      var written := ReplaceResult(docs, target, body, now, clears);
      if written.Failure? {
        out := Next(written.error);
        return;
      }
      var s := written.value;
      ReplaceKeepsInvariants(docs, target, body, now, clears);
      var k :| 0 <= k < |docs| && docs[k] == target;
      if AllConform(docs) {
        ReplaceShopMeetsLengthRules(docs, target, body, params, isEmail, now, clears);
        OverwriteKeepsLengthRules(docs, s);
        if Conforms(s) {
          OverwriteKeepsConformity(docs, s);
        }
      }
      docs := Overwrite(docs, s);
      assert docs[k] == s;
      var i := k;
      FindStored(docs, i);
      var saved := Find(docs, target.id);
      var shown := Transform(saved.value);
      out := Respond(OK, One(shown));
    }

    /** PATCH /v1/shops/:shopId. */
    method Update(target: Shop, body: Body, now: int) returns (out: Outcome)
      requires Valid() && target in docs
      modifies this
      ensures Valid()
      ensures old(AllConform(docs)) ==> AllConform(docs)
      ensures var saved := UpdateResult(old(docs), target, body, now);
        match saved
        case Success(s) => docs == Overwrite(old(docs), s) && out == Respond(OK, One(Projection(s)))
        case Failure(e) => docs == old(docs) && out == Next(e)
    {
      var updated := OmitRole(body, RoleOf(target));
      var saved := SaveExisting(docs, target, Merge(target, updated), now);
      if saved.Success? {
        UpdateKeepsInvariants(docs, target, body, now);
        docs := Overwrite(docs, saved.value);
        var shown := Transform(saved.value);
        out := Respond(OK, One(shown));
      } else {
        out := Next(saved.error);
      }
    }

    /** GET /v1/shops: the model's list, each shop projected, in the same
        order. */
    method List(q: ListQuery) returns (out: Outcome)
      requires PagingOk(q)
      ensures out.Respond? && out.status == OK && out.payload.Many?
      ensures |out.payload.items| == |ShopModel.List(docs, q)|
      ensures forall k :: 0 <= k < |out.payload.items| ==>
        out.payload.items[k] == Projection(ShopModel.List(docs, q)[k])
    {
      var shops := ShopModel.List(docs, q);
      var shown: seq<Json> := [];
      var i := 0;
      while i < |shops|
        invariant 0 <= i <= |shops|
        invariant |shown| == i
        invariant forall k :: 0 <= k < i ==> shown[k] == Projection(shops[k])
      {
        var t := Transform(shops[i]);
        shown := shown + [t];
        i := i + 1;
      }
      out := Respond(OK, Many(shown));
    }

    /** DELETE /v1/shops/:shopId. */
    method Remove(target: Shop) returns (out: Outcome)
      requires Valid()
      modifies this
      ensures Valid()
      ensures old(AllConform(docs)) ==> AllConform(docs)
      ensures docs == RemoveId(old(docs), target.id)
      ensures out == Respond(NO_CONTENT, NoContent)
    {
      RemoveIdKeepsWellFormed(docs, target.id);
      if AllConform(docs) {
        RemoveIdKeepsConformity(docs, target.id);
      }
      docs := RemoveId(docs, target.id);
      out := Respond(NO_CONTENT, NoContent);
    }
  }
}
