/**
 * The request schemas checked before each handler runs. Each schema is a
 * predicate over the query, the body and the path parameters; `isEmail`
 * stands for Joi's `.email()` rule, which is not part of this model.
 */
module ShopValidation {
  import opened Wrappers
  import opened Strings
  import opened ShopModel

  /** The path parameters of `/:shopId`. */
  datatype Params = Params(shopId: Option<string>)

  /** `Joi.string()` on an optional key: absent, or a non-empty string. */
  predicate OptionalString(v: Option<string>) {
    v.None? || v.value != ""
  }

  /** `Joi.string().max(n)` on an optional key. */
  predicate OptionalMax(v: Option<string>, n: nat) {
    v.None? || (v.value != "" && |v.value| <= n)
  }

  /** `Joi.string().min(6).max(128)` on an optional key. */
  predicate OptionalAddress(v: Option<string>) {
    v.None? || (AddressMinLength <= |v.value| <= AddressMaxLength)
  }

  /** `Joi.string().email()` on an optional key. */
  predicate OptionalEmail(v: Option<string>, isEmail: string -> bool) {
    v.None? || (v.value != "" && isEmail(v.value))
  }

  predicate IsHexDigit(c: char) {
    ('0' <= c <= '9') || ('a' <= c <= 'f') || ('A' <= c <= 'F')
  }

  /** `/^[a-fA-F0-9]{24}$/`: a shop id holds no whitespace and is trimmed. */
  predicate IsShopId(s: string)
    ensures IsShopId(s) ==> NoSpace(s) && Trimmed(s)
  {
    |s| == 24 && forall i :: 0 <= i < |s| ==> IsHexDigit(s[i])
  }

  /** Both cases of a hexadecimal digit pass, so an accepted id is also
      accepted lower-cased, and may differ in case from the stored id it
      stands for. */
  lemma ShopIdIgnoresCase(s: string)
    requires IsShopId(s)
    ensures IsShopId(ToLower(s))
  {
  }

  /** `shopId: Joi.string().regex(/^[a-fA-F0-9]{24}$/).required()`. */
  predicate ShopIdParam(p: Params) {
    p.shopId.Some? && IsShopId(p.shopId.value)
  }

  /** GET /v1/shops. A passing query has a usable page and at most 100
      shops per page. */
  predicate ListShops(q: ListQuery)
    ensures ListShops(q) ==> PagingOk(q) && PerPage(q) <= 100
  {
    && (q.page.Some? ==> q.page.value >= 1)
    && (q.perPage.Some? ==> 1 <= q.perPage.value <= 100)
    && OptionalString(q.name)
    && OptionalString(q.email)
  }

  /** POST /v1/shops. A passing body holds the two required keys, and the
      setters leave its address and name within the schema's lengths. */
  predicate CreateShop(body: Body, isEmail: string -> bool)
    ensures CreateShop(body, isEmail) ==>
      && body.email.Some? && body.address.Some?
      && AddressViolations(Cast(body).address) == {}
      && NameViolations(Cast(body).name) == {}
  {
    && body.email.Some? && OptionalEmail(body.email, isEmail)
    && body.address.Some? && OptionalAddress(body.address)
    && OptionalMax(body.name, NameMaxLength)
  }

  /** PUT /v1/shops/:shopId: the body rules are written out again, with the
      path parameter. */
  predicate ReplaceShop(body: Body, params: Params, isEmail: string -> bool)
    ensures ReplaceShop(body, params, isEmail) ==>
      body.email.Some? && body.address.Some? && ShopIdParam(params)
  {
    && body.email.Some? && body.email.value != "" && isEmail(body.email.value)
    && body.address.Some? && AddressMinLength <= |body.address.value| <= AddressMaxLength
    && (body.name.Some? ==> body.name.value != "" && |body.name.value| <= NameMaxLength)
    && params.shopId.Some? && IsShopId(params.shopId.value)
  }

  /** PATCH /v1/shops/:shopId. Every body key is optional; a present one
      obeys the same rule as in `createShop`. */
  predicate UpdateShop(body: Body, params: Params, isEmail: string -> bool)
    ensures UpdateShop(body, params, isEmail) ==>
      && ShopIdParam(params)
      && (body.address.Some? ==> AddressViolations(body.address) == {})
      && (body.name.Some? ==> NameViolations(TrimOpt(body.name)) == {})
  {
    && OptionalEmail(body.email, isEmail)
    && OptionalAddress(body.address)
    && OptionalMax(body.name, NameMaxLength)
    && ShopIdParam(params)
  }

  /** A query that passed `listShops` meets the list query's precondition,
      and a page then holds at most 100 shops. */
  lemma ListShopsAdmitsList(docs: seq<Shop>, q: ListQuery)
    requires ListShops(q)
    ensures PagingOk(q) && 1 <= PerPage(q) <= 100
    ensures |List(docs, q)| <= 100
  {
  }

  /** `replaceShop` applies exactly `createShop`'s body rules, plus a
      24-digit hexadecimal shop id. */
  lemma ReplaceShopIsCreateShop(body: Body, params: Params, isEmail: string -> bool)
    ensures ReplaceShop(body, params, isEmail) <==> CreateShop(body, isEmail) && ShopIdParam(params)
  {
  }

  /** `updateShop` makes every body key optional: every body that
      `replaceShop` accepts, `updateShop` accepts too, but not conversely. */
  lemma UpdateShopWeakensReplaceShop(body: Body, params: Params, isEmail: string -> bool)
    ensures ReplaceShop(body, params, isEmail) ==> UpdateShop(body, params, isEmail)
    ensures ShopIdParam(params) ==> UpdateShop(Body(None, None, None, body.picture, body.loc, body.role), params, isEmail)
    ensures !ReplaceShop(Body(None, None, None, body.picture, body.loc, body.role), params, isEmail)
  {
  }

  /** A body that passed `createShop` (or `replaceShop`) can only be refused
      by the schema for its email: the length rules on `address` and on the
      trimmed `name` already hold. */
  lemma CreateShopMeetsLengthRules(body: Body, isEmail: string -> bool)
    requires CreateShop(body, isEmail)
    ensures forall v :: v in Violations(Cast(body)) ==> v.path == EmailPath
    ensures var d := Cast(body);
      d.address.Some? && AddressMinLength <= |d.address.value| <= AddressMaxLength &&
      (d.name.Some? ==> |d.name.value| <= NameMaxLength)
  {
    var d := Cast(body);
    assert d.name.Some? ==> |d.name.value| <= |body.name.value|;
    assert AddressViolations(d.address) == {} && NameViolations(d.name) == {};
    assert Violations(d) == EmailViolations(d.email);
  }

  /** A body that passed `updateShop`, merged into a conforming shop, can
      only be refused by the schema for its email. */
  lemma UpdateShopMeetsLengthRules(target: Shop, body: Body, params: Params, isEmail: string -> bool)
    requires UpdateShop(body, params, isEmail) && Conforms(target)
    ensures forall v :: v in Violations(Merge(target, body)) ==> v.path == EmailPath
  {
    var d := Merge(target, body);
    assert AddressViolations(d.address) == {} by {
      if body.address.None? {
        assert d.address == Some(target.address);
      }
    }
    assert NameViolations(d.name) == {} by {
      if body.name.None? {
        assert d.name == target.name;
      } else {
        assert d.name == TrimOpt(body.name);
      }
    }
    assert Violations(d) == EmailViolations(d.email);
  }

  /** A replace whose body passed `replaceShop`, written over a conforming
      shop, stores a shop that meets the length rules and the setters'
      guarantees; it conforms exactly when its email has the schema's
      shape, the one rule that the abstract `isEmail` leaves open. */
  lemma ReplaceShopMeetsLengthRules(docs: seq<Shop>, target: Shop, body: Body, params: Params,
                                    isEmail: string -> bool, now: int, clears: bool)
    requires ReplaceShop(body, params, isEmail) && Conforms(target)
    requires ReplaceResult(docs, target, body, now, clears).Success?
    ensures var s := ReplaceResult(docs, target, body, now, clears).value;
      && NormalShop(s) && MeetsLengthRules(s)
      && (Conforms(s) <==> EmailShape(s.email))
  {
    var b := OmitRole(body, RoleOf(target));
    var d := Cast(b);
    var s := Overwritten(target, d, now, clears);
    assert ReplaceResult(docs, target, body, now, clears).value == s;
    assert d.name.Some? ==> |d.name.value| <= |body.name.value|;
  }
}
