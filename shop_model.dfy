/**
 * The Shop record, its schema rules (setters and validators) and the two
 * queries of the data-access model: `get` by id and `list` with an
 * equality filter, newest-first order and page-based skip/limit. The
 * collection is a sequence of documents in the store's natural order;
 * the pure writes (insert, overwrite, delete) that the handlers perform
 * are defined here together with the invariants they keep.
 */
module ShopModel {
  import opened Wrappers
  import opened Strings

  type Id = string

  /** A stored shop document. `loc` is `[longitude, latitude]`; the schema
      declares it as an array, which Mongoose initialises to `[]`. */
  datatype Shop = Shop(
    id: Id,
    email: string,
    address: string,
    name: Option<string>,
    picture: Option<string>,
    loc: seq<real>,
    createdAt: int,
    updatedAt: int)

  /** The request body as the handlers read it; `None` is a missing key. The
      schema declares no `role` path, but a body may still carry one. */
  datatype Body = Body(
    email: Option<string>,
    address: Option<string>,
    name: Option<string>,
    picture: Option<string>,
    loc: Option<seq<real>>,
    role: Option<string>)

  /** A document after the setters ran and before the validators run. */
  datatype Draft = Draft(
    email: Option<string>,
    address: Option<string>,
    name: Option<string>,
    picture: Option<string>,
    loc: seq<real>)

  /* ---------------------------------------------------------------------
     Schema: setters
     --------------------------------------------------------------------- */

  /** The `trim` and `lowercase` setters of `email`. */
  function NormalizeEmail(s: string): (r: string)
    ensures Trimmed(r) && IsLower(r) && |r| <= |s|
  {
    var t := Trim(s);
    ToLowerKeepsTrimmed(t);
    ToLower(t)
  }

  /** Normalising an already normalised email changes nothing. */
  lemma NormalizeEmailIdempotent(s: string)
    ensures NormalizeEmail(NormalizeEmail(s)) == NormalizeEmail(s)
  {
    var n := NormalizeEmail(s);
    TrimOfTrimmed(n);
    ToLowerOfLower(n);
  }

  function TrimOpt(o: Option<string>): (r: Option<string>)
    ensures r.Some? <==> o.Some?
    ensures r.Some? ==> Trimmed(r.value) && |r.value| <= |o.value|
  {
    if o.Some? then Some(Trim(o.value)) else None
  }

  /** `new Shop(body)`: the setters of `email`, `name` and `picture` run,
      `address` is kept as given, and the array path `loc` defaults to [].
      The body's `role` has no path and is not kept. */
  function Cast(body: Body): (r: Draft)
    ensures Normalized(r)
    ensures r.email.Some? <==> body.email.Some?
    ensures r.name.Some? <==> body.name.Some?
    ensures r.picture.Some? <==> body.picture.Some?
    ensures r.address == body.address
    ensures body.loc.None? ==> r.loc == []
  {
    Draft(
      if body.email.Some? then Some(NormalizeEmail(body.email.value)) else None,
      body.address,
      TrimOpt(body.name),
      TrimOpt(body.picture),
      body.loc.GetOr([]))
  }

  /** What the setters guarantee of a draft. */
  predicate Normalized(d: Draft) {
    && (d.email.Some? ==> Trimmed(d.email.value) && IsLower(d.email.value))
    && (d.name.Some? ==> Trimmed(d.name.value))
    && (d.picture.Some? ==> Trimmed(d.picture.value))
  }

  /** What the setters guarantee of a stored shop. */
  predicate NormalShop(s: Shop) {
    && Trimmed(s.email) && IsLower(s.email)
    && (s.name.Some? ==> Trimmed(s.name.value))
    && (s.picture.Some? ==> Trimmed(s.picture.value))
  }

  /* ---------------------------------------------------------------------
     Schema: validators
     --------------------------------------------------------------------- */

  const AddressMinLength: nat := 6
  const AddressMaxLength: nat := 128
  const NameMaxLength: nat := 128

  /** `^\S+@\S+\.\S+$`: no whitespace anywhere, and some `@` with a
      character before it is followed, after at least one character, by a
      `.` with at least one character after it. */
  predicate EmailShape(s: string)
    ensures EmailShape(s) ==> Trimmed(s) && |s| >= 5
  {
    && NoSpace(s)
    && exists i :: 0 < i < |s| && s[i] == '@' &&
         exists j :: i + 1 < j < |s| - 1 && s[j] == '.'
  }

  datatype Path = EmailPath | AddressPath | NamePath

  datatype Violation =
    | Required(path: Path)
    | Mismatch(path: Path)
    | TooShort(path: Path)
    | TooLong(path: Path)

  /** The schema's rules on the validated paths, stated declaratively. */
  predicate MeetsValidators(d: Draft) {
    && d.email.Some? && EmailShape(d.email.value)
    && d.address.Some? && AddressMinLength <= |d.address.value| <= AddressMaxLength
    && (d.name.Some? ==> |d.name.value| <= NameMaxLength)
  }

  /** The error Mongoose reports for each path is the first failing
      validator, in the order required, match / minlength, maxlength. A
      required string must be non-empty. */
  function EmailViolations(e: Option<string>): (r: set<Violation>)
    ensures r == {} <==> e.Some? && EmailShape(e.value)
    ensures forall v :: v in r ==> v == Required(EmailPath) || v == Mismatch(EmailPath)
  {
    if e.None? || e.value == "" then {Required(EmailPath)}
    else if !EmailShape(e.value) then {Mismatch(EmailPath)}
    else {}
  }

  function AddressViolations(a: Option<string>): (r: set<Violation>)
    ensures r == {} <==> a.Some? && AddressMinLength <= |a.value| <= AddressMaxLength
    ensures forall v :: v in r ==> v.path == AddressPath
  {
    if a.None? || a.value == "" then {Required(AddressPath)}
    else if |a.value| < AddressMinLength then {TooShort(AddressPath)}
    else if |a.value| > AddressMaxLength then {TooLong(AddressPath)}
    else {}
  }

  function NameViolations(n: Option<string>): (r: set<Violation>)
    ensures r == {} <==> (n.Some? ==> |n.value| <= NameMaxLength)
    ensures forall v :: v in r ==> v.path == NamePath
  {
    if n.Some? && |n.value| > NameMaxLength then {TooLong(NamePath)} else {}
  }

  /** All the errors the validators report on a draft. */
  function Violations(d: Draft): (r: set<Violation>)
    ensures r == {} <==> MeetsValidators(d)
    ensures forall v :: v in r && v.path == EmailPath ==> v == Required(EmailPath) || v == Mismatch(EmailPath)
  {
    EmailViolations(d.email) + AddressViolations(d.address) + NameViolations(d.name)
  }

  /** The length rules on `address` and `name`. */
  predicate MeetsLengthRules(s: Shop) {
    && AddressMinLength <= |s.address| <= AddressMaxLength
    && (s.name.Some? ==> |s.name.value| <= NameMaxLength)
  }

  /** The schema's rules on a stored shop: setters and validators. */
  predicate Conforms(s: Shop) {
    && NormalShop(s)
    && EmailShape(s.email)
    && MeetsLengthRules(s)
  }

  function Build(d: Draft, id: Id, createdAt: int, updatedAt: int): Shop
    requires d.email.Some? && d.address.Some?
  {
    Shop(id, d.email.value, d.address.value, d.name, d.picture, d.loc, createdAt, updatedAt)
  }

  /** A draft that the setters produced and that passes the validators
      becomes a conforming shop. */
  lemma ValidDraftConforms(d: Draft, id: Id, createdAt: int, updatedAt: int)
    requires Normalized(d) && Violations(d) == {}
    ensures Conforms(Build(d, id, createdAt, updatedAt))
  {
  }

  /* ---------------------------------------------------------------------
     The collection and its invariants
     --------------------------------------------------------------------- */

  predicate UniqueIds(docs: seq<Shop>) {
    forall i, j :: 0 <= i < j < |docs| ==> docs[i].id != docs[j].id
  }

  /** The `unique` index on `email`. */
  predicate UniqueEmails(docs: seq<Shop>) {
    forall i, j :: 0 <= i < j < |docs| ==> docs[i].email != docs[j].email
  }

  /** What the store enforces on every write, whatever path it takes. */
  predicate WellFormed(docs: seq<Shop>) {
    && UniqueIds(docs)
    && UniqueEmails(docs)
    && forall i :: 0 <= i < |docs| ==> NormalShop(docs[i])
  }

  /** Every stored shop also passes the schema's validators. */
  predicate AllConform(docs: seq<Shop>) {
    forall i :: 0 <= i < |docs| ==> Conforms(docs[i])
  }

  predicate HasId(docs: seq<Shop>, id: Id) {
    exists i :: 0 <= i < |docs| && docs[i].id == id
  }

  /** A shop other than `except` already holds `email`. */
  predicate EmailTaken(docs: seq<Shop>, email: string, except: Id) {
    exists i :: 0 <= i < |docs| && docs[i].id != except && docs[i].email == email
  }

  /** `findById`. */
  function Find(docs: seq<Shop>, id: Id): (r: Option<Shop>)
    ensures r.Some? ==> r.value in docs && r.value.id == id
    ensures r.None? <==> !HasId(docs, id)
  {
    if docs == [] then None
    else if docs[0].id == id then Some(docs[0])
    else
      var r := Find(docs[1..], id);
      assert HasId(docs, id) ==> HasId(docs[1..], id) by {
        if HasId(docs, id) {
          var i :| 0 <= i < |docs| && docs[i].id == id;
          assert docs[1..][i - 1].id == id;
        }
      }
      r
  }

  /** With unique ids, `findById` returns exactly the shop holding the id. */
  lemma {:induction false} FindStored(docs: seq<Shop>, i: nat)
    requires UniqueIds(docs) && i < |docs|
    ensures Find(docs, docs[i].id) == Some(docs[i])
  {
    if i > 0 {
      assert UniqueIds(docs[1..]);
      FindStored(docs[1..], i - 1);
    }
  }

  /* ---------------------------------------------------------------------
     get(id)
     --------------------------------------------------------------------- */

  datatype Failure =
    | ApiError(message: string, status: int)
    | ValidationError(violations: set<Violation>)
    | DuplicateKey(path: Path)

  const NotFound: Failure := ApiError("Shop does not exist", 404)

  /** `Shop.get(id)`; `isObjectId` is `mongoose.Types.ObjectId.isValid`,
      and `castId` is the cast of the string to an ObjectId that `findById`
      performs before it compares (as a stored id's canonical string; for
      a 24-digit hexadecimal id this ignores the case of the digits). */
  function Get(docs: seq<Shop>, id: Id, isObjectId: Id -> bool, castId: Id -> Id): (r: Result<Shop, Failure>)
    ensures r.Failure? <==> !isObjectId(id) || !HasId(docs, castId(id))
    ensures r.Failure? ==> r.error == NotFound && r.error.status == 404
    ensures r.Success? ==> r.value in docs && r.value.id == castId(id)
  {
    var found := if isObjectId(id) then Find(docs, castId(id)) else None;
    if found.Some? then Success(found.value) else Failure(NotFound)
  }

  /** A valid id that casts to the id of a stored shop yields that very
      shop. */
  lemma GetStored(docs: seq<Shop>, i: nat, id: Id, isObjectId: Id -> bool, castId: Id -> Id)
    requires UniqueIds(docs) && i < |docs| && isObjectId(id) && castId(id) == docs[i].id
    ensures Get(docs, id, isObjectId, castId) == Success(docs[i])
  {
    FindStored(docs, i);
  }

  /* ---------------------------------------------------------------------
     list({page, perPage, name, email, address})
     --------------------------------------------------------------------- */

  datatype ListQuery = ListQuery(
    page: Option<int>,
    perPage: Option<int>,
    name: Option<string>,
    email: Option<string>,
    address: Option<string>)

  const DefaultPage: int := 1
  const DefaultPerPage: int := 100

  function Page(q: ListQuery): int { q.page.GetOr(DefaultPage) }
  function PerPage(q: ListQuery): int { q.perPage.GetOr(DefaultPerPage) }

  /** Skip and limit are meaningful: a non-negative skip and a positive
      limit (`limit(0)` would mean no limit at all). */
  predicate PagingOk(q: ListQuery) {
    Page(q) >= 1 && PerPage(q) >= 1
  }

  /** `perPage * (page - 1)`. */
  function Skip(q: ListQuery): nat
    requires PagingOk(q)
  {
    var n := PerPage(q) * (Page(q) - 1);
    assert n >= 0 by { NonNegProduct(PerPage(q), Page(q) - 1); }
    n
  }

  lemma NonNegProduct(a: nat, b: nat)
    ensures a * b >= 0
  {
  }

  datatype FilterKey = NameKey | EmailKey | AddressKey

  function QueryField(q: ListQuery, k: FilterKey): Option<string> {
    match k
    case NameKey => q.name
    case EmailKey => q.email
    case AddressKey => q.address
  }

  /** `omitBy({ name, email, address }, isNil)`: exactly the non-nil query
      fields become keys of the filter. */
  function FilterOptions(q: ListQuery): (r: map<FilterKey, string>)
    ensures forall k :: k in r <==> QueryField(q, k).Some?
    ensures forall k :: k in r ==> r[k] == QueryField(q, k).value
  {
    var byName := if q.name.Some? then map[NameKey := q.name.value] else map[];
    var byEmail := if q.email.Some? then map[EmailKey := q.email.value] else map[];
    var byAddress := if q.address.Some? then map[AddressKey := q.address.value] else map[];
    byName + byEmail + byAddress
  }

  function ShopField(s: Shop, k: FilterKey): Option<string> {
    match k
    case NameKey => s.name
    case EmailKey => Some(s.email)
    case AddressKey => Some(s.address)
  }

  /** The equality filter of `find(options)`. */
  predicate Matches(s: Shop, options: map<FilterKey, string>) {
    forall k :: k in options ==> ShopField(s, k) == Some(options[k])
  }

  /** A nil query field imposes no constraint; a present one demands
      equality. */
  lemma MatchesExactly(s: Shop, q: ListQuery)
    ensures Matches(s, FilterOptions(q)) <==>
      && (q.name.Some? ==> s.name == q.name)
      && (q.email.Some? ==> s.email == q.email.value)
      && (q.address.Some? ==> s.address == q.address.value)
  {
    var o := FilterOptions(q);
    if q.name.Some? { assert NameKey in o; }
    if q.email.Some? { assert EmailKey in o; }
    if q.address.Some? { assert AddressKey in o; }
    if (q.name.Some? ==> s.name == q.name) && (q.email.Some? ==> s.email == q.email.value)
       && (q.address.Some? ==> s.address == q.address.value) {
      forall k | k in o ensures ShopField(s, k) == Some(o[k]) {
        match k
        case NameKey =>
        case EmailKey =>
        case AddressKey =>
      }
    }
  }

  function Filter(docs: seq<Shop>, options: map<FilterKey, string>): (r: seq<Shop>)
    ensures forall x :: x in r <==> x in docs && Matches(x, options)
    ensures multiset(r) <= multiset(docs)
  {
    if docs == [] then []
    else
      var rest := Filter(docs[1..], options);
      assert docs == [docs[0]] + docs[1..];
      if Matches(docs[0], options) then [docs[0]] + rest else rest
  }

  /** With no filter, `find` returns the whole collection. */
  lemma {:induction false} FilterNothing(docs: seq<Shop>)
    ensures Filter(docs, map[]) == docs
  {
    if docs != [] {
      FilterNothing(docs[1..]);
      assert docs == [docs[0]] + docs[1..];
    }
  }

  /** Newest first: non-increasing `createdAt`. */
  predicate NewestFirst(s: seq<Shop>) {
    forall i, j :: 0 <= i < j < |s| ==> s[i].createdAt >= s[j].createdAt
  }

  /** A shop at least as new as every shop of a newest-first sequence can go
      in front of it. */
  lemma ConsNewestFirst(x: Shop, s: seq<Shop>)
    requires NewestFirst(s)
    requires forall k :: 0 <= k < |s| ==> s[k].createdAt <= x.createdAt
    ensures NewestFirst([x] + s)
  {
    var r := [x] + s;
    forall i, j | 0 <= i < j < |r| ensures r[i].createdAt >= r[j].createdAt {
      assert r[j] == s[j - 1];
      if i > 0 {
        assert r[i] == s[i - 1];
      }
    }
  }

  /** Shops drawn from `x` and `tail` are no newer than a bound on both. */
  lemma NoNewerThan(rest: seq<Shop>, x: Shop, tail: seq<Shop>, bound: int)
    requires multiset(rest) == multiset(tail) + multiset{x}
    requires x.createdAt <= bound
    requires forall k :: 0 <= k < |tail| ==> tail[k].createdAt <= bound
    ensures forall k :: 0 <= k < |rest| ==> rest[k].createdAt <= bound
  {
    forall k | 0 <= k < |rest| ensures rest[k].createdAt <= bound {
      assert rest[k] in multiset(rest);
      if rest[k] != x {
        assert rest[k] in multiset(tail);
        var m :| 0 <= m < |tail| && tail[m] == rest[k];
      }
    }
  }

  /** Putting the newer head back in front of the insertion into the tail. */
  lemma InsertBehindHead(x: Shop, s: seq<Shop>, rest: seq<Shop>)
    requires NewestFirst(s) && s != [] && x.createdAt < s[0].createdAt
    requires NewestFirst(rest) && multiset(rest) == multiset(s[1..]) + multiset{x}
    ensures NewestFirst([s[0]] + rest)
    ensures multiset([s[0]] + rest) == multiset(s) + multiset{x}
  {
    var tail := s[1..];
    assert forall k :: 0 <= k < |tail| ==> tail[k] == s[k + 1];
    NoNewerThan(rest, x, tail, s[0].createdAt);
    ConsNewestFirst(s[0], rest);
    assert s == [s[0]] + tail;
  }

  function InsertByCreatedAt(x: Shop, s: seq<Shop>): (r: seq<Shop>)
    requires NewestFirst(s)
    ensures NewestFirst(r)
    ensures multiset(r) == multiset(s) + multiset{x}
  {
    if s == [] || s[0].createdAt <= x.createdAt then
      ConsNewestFirst(x, s);
      [x] + s
    else
      assert NewestFirst(s[1..]) by {
        assert forall k :: 0 <= k < |s| - 1 ==> s[1..][k] == s[k + 1];
      }
      var rest := InsertByCreatedAt(x, s[1..]);
      InsertBehindHead(x, s, rest);
      [s[0]] + rest
  }

  /** `sort({ createdAt: -1 })`; ties keep the collection's order. */
  function SortByCreatedAt(s: seq<Shop>): (r: seq<Shop>)
    ensures NewestFirst(r)
    ensures multiset(r) == multiset(s)
  {
    if s == [] then []
    else
      assert s == [s[0]] + s[1..];
      InsertByCreatedAt(s[0], SortByCreatedAt(s[1..]))
  }

  /** All matching shops, newest first, before skip and limit. */
  function Ordered(docs: seq<Shop>, q: ListQuery): seq<Shop> {
    SortByCreatedAt(Filter(docs, FilterOptions(q)))
  }

  /** The ordered matches are exactly the matching shops: a permutation of
      the filtered collection, in newest-first order. */
  lemma OrderedIsSortedMatches(docs: seq<Shop>, q: ListQuery)
    ensures NewestFirst(Ordered(docs, q))
    ensures multiset(Ordered(docs, q)) == multiset(Filter(docs, FilterOptions(q)))
    ensures forall x :: x in Ordered(docs, q) <==> x in docs && Matches(x, FilterOptions(q))
  {
    var f := Filter(docs, FilterOptions(q));
    var o := Ordered(docs, q);
    forall x ensures x in o <==> x in f {
      assert x in o <==> x in multiset(o);
      assert x in f <==> x in multiset(f);
    }
  }

  function Min(a: int, b: int): int { if a <= b then a else b }

  /** `skip(skip).limit(limit)` on a sequence. */
  function Window(o: seq<Shop>, skip: nat, limit: nat): (r: seq<Shop>)
    ensures |r| == Min(limit, if |o| > skip then |o| - skip else 0)
    ensures forall k :: 0 <= k < |r| ==> skip + k < |o| && r[k] == o[skip + k]
  {
    var from := Min(skip, |o|);
    var to := Min(from + limit, |o|);
    o[from..to]
  }

  /** `find(options).sort({ createdAt: -1 }).skip(perPage * (page - 1)).limit(perPage)`. */
  function List(docs: seq<Shop>, q: ListQuery): (r: seq<Shop>)
    requires PagingOk(q)
    ensures |r| <= PerPage(q)
    ensures var o := Ordered(docs, q);
      |r| == Min(PerPage(q), if |o| > Skip(q) then |o| - Skip(q) else 0)
    ensures var o := Ordered(docs, q);
      forall k :: 0 <= k < |r| ==> Skip(q) + k < |o| && r[k] == o[Skip(q) + k]
  {
    var o := Ordered(docs, q);
    Window(o, Skip(q), PerPage(q))
  }

  /** Each listed shop is stored and matches the filter, and the page is in
      newest-first order. */
  lemma ListMatchesNewestFirst(docs: seq<Shop>, q: ListQuery)
    requires PagingOk(q)
    ensures NewestFirst(List(docs, q))
    ensures forall x :: x in List(docs, q) ==> x in docs && Matches(x, FilterOptions(q))
  {
    OrderedIsSortedMatches(docs, q);
    var o := Ordered(docs, q);
    var r := List(docs, q);
    forall x | x in r ensures x in docs && Matches(x, FilterOptions(q)) {
      var k :| 0 <= k < |r| && r[k] == x;
      assert o[Skip(q) + k] == x;
    }
  }

  /** A missing page or perPage behaves as page 1 and perPage 100. */
  lemma ListDefaults(docs: seq<Shop>, q: ListQuery)
    requires q.page.None? && q.perPage.None?
    ensures PagingOk(q) && Skip(q) == 0 && PerPage(q) == 100
    ensures List(docs, q) == List(docs, q.(page := Some(1), perPage := Some(100)))
  {
  }

  /** Without any filter field, the first page lists the newest shops of the
      whole collection. */
  lemma ListUnfiltered(docs: seq<Shop>, q: ListQuery)
    requires q.name.None? && q.email.None? && q.address.None? && PagingOk(q)
    ensures Ordered(docs, q) == SortByCreatedAt(docs)
  {
    assert FilterOptions(q) == map[];
    FilterNothing(docs);
  }

  /* ---------------------------------------------------------------------
     transform()
     --------------------------------------------------------------------- */

  datatype Field =
    | IdField | EmailField | PictureField | AddressField | CreatedAtField | LocField
    | NameField | UpdatedAtField

  datatype Value = Str(s: string) | Num(n: int) | Coords(c: seq<real>) | Undefined

  type Json = map<Field, Value>

  function FieldValue(s: Shop, f: Field): Value {
    match f
    case IdField => Str(s.id)
    case EmailField => Str(s.email)
    case PictureField => if s.picture.Some? then Str(s.picture.value) else Undefined
    case AddressField => Str(s.address)
    case CreatedAtField => Num(s.createdAt)
    case LocField => Coords(s.loc)
    case NameField => if s.name.Some? then Str(s.name.value) else Undefined
    case UpdatedAtField => Num(s.updatedAt)
  }

  const AllFields: set<Field> :=
    {IdField, EmailField, PictureField, AddressField, CreatedAtField, LocField, NameField, UpdatedAtField}

  /** The fields `transform` lists, in its order. */
  const PublicFields: seq<Field> := [IdField, EmailField, PictureField, AddressField, CreatedAtField, LocField]

  /** The document's paths as the handlers see them, with `id` standing
      for the `_id` path (undefined paths are left out; the version key
      `__v` is not modelled). */
  function Document(s: Shop): (r: Json)
    ensures forall f :: f in r <==> FieldValue(s, f) != Undefined
  {
    map f | f in AllFields && FieldValue(s, f) != Undefined :: FieldValue(s, f)
  }

  /** The client-facing projection: the six listed fields, copied from the
      document. */
  function Projection(s: Shop): (r: Json)
    ensures forall f :: f in r <==> f in PublicFields
  {
    map f | f in PublicFields :: FieldValue(s, f)
  }

  /** The projection is the document restricted to the listed fields. */
  lemma ProjectionRestrictsDocument(s: Shop)
    ensures forall f :: f in Projection(s) && f in Document(s) ==> Projection(s)[f] == Document(s)[f]
    ensures forall f :: f in Document(s) && f in PublicFields ==> f in Projection(s)
    ensures NameField !in Projection(s) && UpdatedAtField !in Projection(s)
  {
  }

  /** The loop of `transform`: copies each listed field into `transformed`. */
  method Transform(s: Shop) returns (transformed: Json)
    ensures transformed == Projection(s)
  {
    transformed := map[];
    var fields := PublicFields;
    var i := 0;
    while i < |fields|
      invariant 0 <= i <= |fields|
      invariant forall f :: f in transformed <==> f in fields[..i]
      invariant forall f :: f in transformed ==> transformed[f] == FieldValue(s, f)
    {
      transformed := transformed[fields[i] := FieldValue(s, fields[i])];
      i := i + 1;
    }
    assert fields[..i] == PublicFields;
  }

  /** `transform` as written: it fills `transformed` and then returns the
      document itself. */
  method TransformAsWritten(s: Shop) returns (r: Shop)
    ensures r == s
  {
    var transformed := Transform(s);
    r := s;
  }

  /** What the as-written `transform` hands to the response beyond the
      projection: `updatedAt` always, and `name` whenever it is set. */
  lemma AsWrittenExposesPrivateFields(s: Shop)
    ensures UpdatedAtField in Document(s) && UpdatedAtField !in Projection(s)
    ensures s.name.Some? ==> NameField in Document(s) && NameField !in Projection(s)
    ensures Document(s) != Projection(s)
  {
    assert UpdatedAtField in Document(s);
  }

  /* ---------------------------------------------------------------------
     Writes
     --------------------------------------------------------------------- */

  /** Reading `role` on a document: the schema has no such path, so it is
      undefined for every stored shop. */
  function RoleOf(s: Shop): (r: Option<string>)
    ensures r != Some("admin")
  {
    None
  }

  /** `omit(body, ommitRole)`: the `role` key is dropped unless the stored
      shop's role is `'admin'`. */
  function OmitRole(body: Body, storedRole: Option<string>): (r: Body)
    ensures storedRole != Some("admin") ==> r.role.None?
    ensures storedRole == Some("admin") ==> r == body
    ensures r.(role := body.role) == body
  {
    if storedRole != Some("admin") then body.(role := None) else body
  }

  /** No stored shop is an admin, so the body's role is always dropped. */
  lemma RoleAlwaysOmitted(s: Shop, body: Body)
    ensures OmitRole(body, RoleOf(s)) == body.(role := None)
  {
  }

  /** `save()` of a new document: validators first, then the unique index. */
  function SaveNew(docs: seq<Shop>, d: Draft, id: Id, now: int): (r: Result<Shop, Failure>)
    ensures Violations(d) != {} ==> r == Failure(ValidationError(Violations(d)))
    ensures Violations(d) == {} ==>
      (r.Failure? <==> EmailTaken(docs, d.email.value, id)) &&
      (r.Failure? ==> r.error == DuplicateKey(EmailPath))
    ensures r.Success? ==> r.value.id == id && r.value.createdAt == now && r.value.updatedAt == now
    ensures r.Success? ==>
      && d.email == Some(r.value.email) && d.address == Some(r.value.address)
      && r.value.name == d.name && r.value.picture == d.picture && r.value.loc == d.loc
  {
    var v := Violations(d);
    if v != {} then Failure(ValidationError(v))
    else
      var s := Build(d, id, now, now);
      if EmailTaken(docs, s.email, id) then Failure(DuplicateKey(EmailPath)) else Success(s)
  }

  /** A created shop holds the body's fields as the setters leave them. */
  lemma CreateStoresBody(docs: seq<Shop>, body: Body, id: Id, now: int)
    requires SaveNew(docs, Cast(body), id, now).Success?
    ensures body.email.Some? && body.address.Some?
    ensures var s := SaveNew(docs, Cast(body), id, now).value;
      && s.id == id
      && s.email == NormalizeEmail(body.email.value)
      && s.address == body.address.value
      && s.name == TrimOpt(body.name)
      && s.picture == TrimOpt(body.picture)
      && s.loc == body.loc.GetOr([])
  {
  }

  /** Two emails collide in the unique index exactly when they agree, once
      trimmed, up to the case of their letters. */
  lemma NormalizeEmailEqual(a: string, b: string)
    ensures NormalizeEmail(a) == NormalizeEmail(b) <==> EqualIgnoringCase(Trim(a), Trim(b))
  {
    ToLowerEqual(Trim(a), Trim(b));
  }

  /** A create whose email differs from a stored one only in surrounding
      whitespace and letter case is refused by the unique index. */
  lemma CreateRefusesCaseVariant(docs: seq<Shop>, k: nat, earlier: string, body: Body, id: Id, now: int)
    requires k < |docs| && docs[k].id != id && docs[k].email == NormalizeEmail(earlier)
    requires body.email.Some? && EqualIgnoringCase(Trim(body.email.value), Trim(earlier))
    requires Violations(Cast(body)) == {}
    ensures SaveNew(docs, Cast(body), id, now) == Failure(DuplicateKey(EmailPath))
  {
    NormalizeEmailEqual(body.email.value, earlier);
    assert EmailTaken(docs, Cast(body).email.value, id);
  }

  /** " A@B.com" and "a@b.com" are one email for the unique index. */
  lemma CaseVariantExample()
    ensures NormalizeEmail(" A@B.com") == NormalizeEmail("a@b.com")
  {
    var a, b := " A@B.com", "a@b.com";
    TrimExample();
    TrimOfTrimmed(b);
    CaseExample();
    assert EqualIgnoringCase(Trim(a), Trim(b));
    NormalizeEmailEqual(a, b);
  }

  lemma CaseExample()
    ensures EqualIgnoringCase("A@B.com", "a@b.com")
  {
    var t, b := "A@B.com", "a@b.com";
    assert SameLetter(t[0], b[0]) && SameLetter(t[2], b[2]);
    assert forall i :: 0 <= i < 7 && i != 0 && i != 2 ==> t[i] == b[i];
  }

  lemma TrimExample()
    ensures Trim(" A@B.com") == "A@B.com"
  {
    var a := " A@B.com";
    assert AllSpace(a[..1]) && a[1..8] == "A@B.com" && AllSpace(a[8..]);
    TrimCharacterized(a, "A@B.com", 1);
  }

  /** `Object.assign(shop, body)`: each key in the body overwrites its path
      (through the path's setters); every other path keeps its value. */
  function Merge(target: Shop, body: Body): (r: Draft)
    ensures NormalShop(target) ==> Normalized(r)
    ensures r.email.Some? && r.address.Some?
    ensures body.email.None? ==> r.email == Some(target.email)
    ensures body.address.None? ==> r.address == Some(target.address)
    ensures body.name.None? ==> r.name == target.name
    ensures body.picture.None? ==> r.picture == target.picture
    ensures body.loc.None? ==> r.loc == target.loc
  {
    Draft(
      Some(if body.email.Some? then NormalizeEmail(body.email.value) else target.email),
      Some(body.address.GetOr(target.address)),
      if body.name.Some? then TrimOpt(body.name) else target.name,
      if body.picture.Some? then TrimOpt(body.picture) else target.picture,
      body.loc.GetOr(target.loc))
  }

  /** `save()` of an existing document: validators, then the unique index;
      `updatedAt` moves only when some path changed. */
  function SaveExisting(docs: seq<Shop>, target: Shop, d: Draft, now: int): (r: Result<Shop, Failure>)
    requires d.email.Some? && d.address.Some?
    ensures Violations(d) != {} ==> r == Failure(ValidationError(Violations(d)))
    ensures Violations(d) == {} ==>
      (r.Failure? <==> EmailTaken(docs, d.email.value, target.id)) &&
      (r.Failure? ==> r.error == DuplicateKey(EmailPath))
    ensures r.Success? ==> r.value.id == target.id && r.value.createdAt == target.createdAt
    ensures r.Success? ==>
      r.value == Build(d, target.id, target.createdAt, target.updatedAt) ||
      r.value == Build(d, target.id, target.createdAt, now)
  {
    var v := Violations(d);
    if v != {} then Failure(ValidationError(v))
    else
      var same := Build(d, target.id, target.createdAt, target.updatedAt);
      var s := if same == target then target else same.(updatedAt := now);
      if EmailTaken(docs, s.email, target.id) then Failure(DuplicateKey(EmailPath)) else Success(s)
  }

  /** The update handler's write: merge the body (without `role`) and save.
      A saved update passes the schema's rules whenever the shop it
      starts from was produced by the setters. */
  function UpdateResult(docs: seq<Shop>, target: Shop, body: Body, now: int): (r: Result<Shop, Failure>)
    ensures r.Success? ==> r.value.id == target.id && r.value.createdAt == target.createdAt
    ensures r.Success? && NormalShop(target) ==> Conforms(r.value)
    ensures r.Failure? ==> r.error.ValidationError? || r.error == DuplicateKey(EmailPath)
  {
    var d := Merge(target, OmitRole(body, RoleOf(target)));
    var r := SaveExisting(docs, target, d, now);
    if r.Success? && NormalShop(target) then
      ValidDraftConforms(d, target.id, target.createdAt, target.updatedAt);
      ValidDraftConforms(d, target.id, target.createdAt, now);
      r
    else
      r
  }

  /** An update overwrites exactly the paths the body names and keeps every
      other one, including the id and `createdAt`. */
  lemma UpdateMergesBody(docs: seq<Shop>, target: Shop, body: Body, now: int)
    requires UpdateResult(docs, target, body, now).Success?
    ensures var s := UpdateResult(docs, target, body, now).value;
      && s.id == target.id && s.createdAt == target.createdAt
      && s.email == (if body.email.Some? then NormalizeEmail(body.email.value) else target.email)
      && s.address == (if body.address.Some? then body.address.value else target.address)
      && s.name == (if body.name.Some? then Some(Trim(body.name.value)) else target.name)
      && s.picture == (if body.picture.Some? then Some(Trim(body.picture.value)) else target.picture)
      && s.loc == (if body.loc.Some? then body.loc.value else target.loc)
  {
  }

  /** `new Shop(body).toObject()` without `_id` and `role`, written over the
      stored shop's paths. Whether paths missing from the body are cleared
      depends on how the driver reads the `override` option: `clears`. */
  function Overwritten(target: Shop, d: Draft, now: int, clears: bool): (r: Shop)
    requires d.email.Some? && d.address.Some?
    ensures r.id == target.id && r.createdAt == target.createdAt && r.updatedAt == now
    ensures r.email == d.email.value && r.address == d.address.value && r.loc == d.loc
    ensures d.name.Some? || clears ==> r.name == d.name
    ensures d.name.None? && !clears ==> r.name == target.name
    ensures d.picture.Some? || clears ==> r.picture == d.picture
    ensures d.picture.None? && !clears ==> r.picture == target.picture
  {
    Shop(
      target.id,
      d.email.value,
      d.address.value,
      if d.name.Some? || clears then d.name else target.name,
      if d.picture.Some? || clears then d.picture else target.picture,
      d.loc,
      target.createdAt,
      now)
  }

  /** The replace handler's write. A query update runs no schema validators;
      only the unique index can refuse it. */
  function ReplaceResult(docs: seq<Shop>, target: Shop, body: Body, now: int, clears: bool): (r: Result<Shop, Failure>)
    requires body.email.Some? && body.address.Some?
    ensures r.Failure? <==> EmailTaken(docs, NormalizeEmail(body.email.value), target.id)
    ensures r.Failure? ==> r.error == DuplicateKey(EmailPath)
  {
    var s := Overwritten(target, Cast(OmitRole(body, RoleOf(target))), now, clears);
    if EmailTaken(docs, s.email, target.id) then Failure(DuplicateKey(EmailPath)) else Success(s)
  }

  /** A replace keeps the id and writes the body's fields. */
  lemma ReplaceKeepsIdentity(docs: seq<Shop>, target: Shop, body: Body, now: int, clears: bool)
    requires body.email.Some? && body.address.Some?
    requires ReplaceResult(docs, target, body, now, clears).Success?
    ensures var s := ReplaceResult(docs, target, body, now, clears).value;
      && s.id == target.id
      && s.email == NormalizeEmail(body.email.value)
      && s.address == body.address.value
      && (body.name.Some? ==> s.name == Some(Trim(body.name.value)))
      && (body.picture.Some? ==> s.picture == Some(Trim(body.picture.value)))
      && s.loc == body.loc.GetOr([])
  {
  }

  /** Writes `s` over the stored shop with the same id. */
  function Overwrite(docs: seq<Shop>, s: Shop): (r: seq<Shop>)
    ensures |r| == |docs|
    ensures forall i :: 0 <= i < |docs| ==> r[i] == if docs[i].id == s.id then s else docs[i]
  {
    seq(|docs|, i requires 0 <= i < |docs| => if docs[i].id == s.id then s else docs[i])
  }

  /** `remove()`: deletes the shop with the id. */
  function RemoveId(docs: seq<Shop>, id: Id): (r: seq<Shop>)
    ensures forall x :: x in r <==> x in docs && x.id != id
    ensures multiset(r) <= multiset(docs)
  {
    if docs == [] then []
    else
      var rest := RemoveId(docs[1..], id);
      assert docs == [docs[0]] + docs[1..];
      if docs[0].id == id then rest else [docs[0]] + rest
  }

  /* ---------------------------------------------------------------------
     The writes keep the invariants
     --------------------------------------------------------------------- */

  lemma InsertKeepsWellFormed(docs: seq<Shop>, s: Shop)
    requires WellFormed(docs) && NormalShop(s)
    requires !HasId(docs, s.id) && !EmailTaken(docs, s.email, s.id)
    ensures WellFormed(docs + [s])
  {
    var r := docs + [s];
    forall i, j | 0 <= i < j < |r| ensures r[i].id != r[j].id && r[i].email != r[j].email {
      if j == |docs| {
        assert r[i] == docs[i];
      }
    }
  }

  lemma OverwriteKeepsWellFormed(docs: seq<Shop>, s: Shop)
    requires WellFormed(docs) && NormalShop(s) && !EmailTaken(docs, s.email, s.id)
    ensures WellFormed(Overwrite(docs, s))
  {
    var r := Overwrite(docs, s);
    forall i, j | 0 <= i < j < |r| ensures r[i].id != r[j].id && r[i].email != r[j].email {
      assert r[i].id == docs[i].id && r[j].id == docs[j].id;
    }
  }

  lemma OverwriteKeepsConformity(docs: seq<Shop>, s: Shop)
    requires AllConform(docs) && Conforms(s)
    ensures AllConform(Overwrite(docs, s))
  {
  }

  /** A write that meets the length rules over shops that conform leaves
      every shop within the length rules. */
  lemma OverwriteKeepsLengthRules(docs: seq<Shop>, s: Shop)
    requires AllConform(docs) && MeetsLengthRules(s)
    ensures forall k :: 0 <= k < |docs| ==> MeetsLengthRules(Overwrite(docs, s)[k])
  {
  }

  /** Prepending a shop keeps the collection well formed when neither its
      id nor its email occurs in the rest. */
  lemma ConsKeepsWellFormed(x: Shop, rest: seq<Shop>)
    requires WellFormed(rest) && NormalShop(x)
    requires forall y :: y in rest ==> y.id != x.id && y.email != x.email
    ensures WellFormed([x] + rest)
  {
    var r := [x] + rest;
    forall i, j | 0 <= i < j < |r| ensures r[i].id != r[j].id && r[i].email != r[j].email {
      assert r[j] == rest[j - 1];
      if i == 0 {
        assert r[j] in rest;
      } else {
        assert r[i] == rest[i - 1];
      }
    }
  }

  /** Removing shops keeps ids and emails unique. */
  lemma {:induction false} RemoveIdKeepsWellFormed(docs: seq<Shop>, id: Id)
    requires WellFormed(docs)
    ensures WellFormed(RemoveId(docs, id))
  {
    if docs != [] {
      var tail := docs[1..];
      assert WellFormed(tail) by {
        assert forall i :: 0 <= i < |tail| ==> tail[i] == docs[i + 1];
      }
      RemoveIdKeepsWellFormed(tail, id);
      if docs[0].id != id {
        forall y | y in RemoveId(tail, id) ensures y.id != docs[0].id && y.email != docs[0].email {
          var k :| 0 <= k < |tail| && tail[k] == y;
          assert docs[k + 1] == y;
        }
        ConsKeepsWellFormed(docs[0], RemoveId(tail, id));
      }
    }
  }

  /** A removal deletes exactly the shops with that id and keeps every other
      one. */
  lemma RemoveIdExact(docs: seq<Shop>, id: Id, i: nat)
    requires i < |docs|
    ensures docs[i].id != id ==> docs[i] in RemoveId(docs, id)
    ensures !HasId(RemoveId(docs, id), id)
  {
    var r := RemoveId(docs, id);
    forall k | 0 <= k < |r| ensures r[k].id != id {
      assert r[k] in r;
    }
  }

  lemma RemoveIdKeepsConformity(docs: seq<Shop>, id: Id)
    requires AllConform(docs)
    ensures AllConform(RemoveId(docs, id))
  {
    var r := RemoveId(docs, id);
    forall i | 0 <= i < |r| ensures Conforms(r[i]) {
      assert r[i] in r;
      var k :| 0 <= k < |docs| && docs[k] == r[i];
    }
  }

  /** A successful create adds a conforming shop and keeps the invariants. */
  lemma SaveNewKeepsInvariants(docs: seq<Shop>, d: Draft, id: Id, now: int)
    requires WellFormed(docs) && Normalized(d) && !HasId(docs, id)
    requires SaveNew(docs, d, id, now).Success?
    ensures var s := SaveNew(docs, d, id, now).value;
      && Conforms(s)
      && WellFormed(docs + [s])
      && (AllConform(docs) ==> AllConform(docs + [s]))
  {
    var s := SaveNew(docs, d, id, now).value;
    ValidDraftConforms(d, id, now, now);
    InsertKeepsWellFormed(docs, s);
  }

  /** A successful update stores a conforming shop and keeps the invariants. */
  lemma UpdateKeepsInvariants(docs: seq<Shop>, target: Shop, body: Body, now: int)
    requires WellFormed(docs) && target in docs
    requires UpdateResult(docs, target, body, now).Success?
    ensures var s := UpdateResult(docs, target, body, now).value;
      && Conforms(s)
      && WellFormed(Overwrite(docs, s))
      && (AllConform(docs) ==> AllConform(Overwrite(docs, s)))
  {
    var s := UpdateResult(docs, target, body, now).value;
    assert NormalShop(target) by {
      var k :| 0 <= k < |docs| && docs[k] == target;
    }
    OverwriteKeepsWellFormed(docs, s);
  }

  /** A successful replace keeps the store's own guarantees; the schema's
      validators hold afterwards only if the written shop meets them. */
  lemma ReplaceKeepsInvariants(docs: seq<Shop>, target: Shop, body: Body, now: int, clears: bool)
    requires WellFormed(docs) && target in docs
    requires body.email.Some? && body.address.Some?
    requires ReplaceResult(docs, target, body, now, clears).Success?
    ensures var s := ReplaceResult(docs, target, body, now, clears).value;
      && WellFormed(Overwrite(docs, s))
      && (AllConform(docs) && Conforms(s) ==> AllConform(Overwrite(docs, s)))
  {
    var d := Cast(OmitRole(body, RoleOf(target)));
    var s := Overwritten(target, d, now, clears);
    assert ReplaceResult(docs, target, body, now, clears).value == s;
    assert NormalShop(target) by {
      var k :| 0 <= k < |docs| && docs[k] == target;
    }
    assert NormalShop(s);
    OverwriteKeepsWellFormed(docs, s);
    if AllConform(docs) && Conforms(s) {
      OverwriteKeepsConformity(docs, s);
    }
  }
}
