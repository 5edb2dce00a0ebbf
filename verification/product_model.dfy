/**
 * The product schema: a trimmed name of 5 to 100 characters, a price, an optional
 * trimmed description, a cover image, image names, and a creation date whose default
 * is a fixed time.
 */
module ProductModel {
  import opened Wrappers
  import opened Text
  import opened Js
  import opened Mongoose

  const MinNameLength := 5
  const MaxNameLength := 100

  const NameRequired := "A product name is required"
  const NameTooShort := "Product name must be more than 5 characters"
  const NameTooLong := "Product name must be less than 100 characters"
  const PriceRequired := "A product price is required"
  const CoverRequired := "A tour must have a cover image"

  /** The schema paths that can report an error, in schema order. */
  const ProductPaths: seq<string> := ["name", "price", "description", "imageCover"]

  /** The values a new product is built from. `createdAt` is a time in milliseconds, if given. */
  datatype NewProductFields = NewProductFields(name: JsValue, price: JsValue, description: JsValue,
                                               imageCover: JsValue, images: seq<string>, createdAt: Option<int>)

  /** A product document. An unset path is `None`; the price is kept as given. */
  datatype Product = Product(name: Option<string>, price: Option<JsValue>, description: Option<string>,
                             imageCover: Option<string>, images: seq<string>, createdAt: Option<int>)

  /** A new product document and the String paths whose value could not be cast. */
  datatype ProductDoc = ProductDoc(product: Product, castFailed: set<string>)

  /** A String path with the `trim` setter: the cast value with surrounding whitespace
      removed. */
  function TrimmedString(v: JsValue): (r: Option<string>)
    ensures r.Some? <==> Castable(v)
    ensures r.Some? ==> r.value == Trim(CastText(v))
  {
    match Assigned(v)
    case Some(s) => Some(Trim(s))
    case None => None
  }

  /** `new Product(fields)`, with the creation time defaulting to `defaultCreatedAt`, the
      value `Date.now()` had when the schema was defined. */
  function NewProduct(f: NewProductFields, defaultCreatedAt: int): (d: ProductDoc)
    ensures d.product.name == TrimmedString(f.name)
    ensures d.product.description == TrimmedString(f.description)
    ensures d.product.imageCover == Assigned(f.imageCover)
    ensures d.product.price.Some? <==> f.price != Undefined && f.price != Null
    ensures d.product.images == f.images
    ensures d.product.createdAt == if f.createdAt.Some? then f.createdAt else Some(defaultCreatedAt)
    ensures forall p :: p in d.castFailed <==> p in ProductPaths && p != "price" && CastFails(FieldValue(f, p))
  {
    var price := if f.price == Undefined || f.price == Null then None else Some(f.price);
    var createdAt := if f.createdAt.Some? then f.createdAt else Some(defaultCreatedAt);
    var failed := (if CastFails(f.name) then {"name"} else {}) + (if CastFails(f.description) then {"description"} else {})
                  + (if CastFails(f.imageCover) then {"imageCover"} else {});
    ProductDoc(Product(TrimmedString(f.name), price, TrimmedString(f.description), Assigned(f.imageCover),
                       f.images, createdAt), failed)
  }

  /** The given value of a String path. */
  function FieldValue(f: NewProductFields, path: string): JsValue {
    if path == "name" then f.name
    else if path == "description" then f.description
    else if path == "imageCover" then f.imageCover
    else Undefined
  }

  /** The first failing validator of `name`: required, then `minlength`, then `maxlength`. */
  function NameError(p: Product): Option<string> {
    if !PresentString(p.name) then Some(NameRequired)
    else if Utf16Length(p.name.value) < MinNameLength then Some(NameTooShort)
    else if Utf16Length(p.name.value) > MaxNameLength then Some(NameTooLong)
    else None
  }

  /** The error reported for one path: its cast failure, else its first failing validator. */
  function PathError(d: ProductDoc, path: string): Option<string> {
    if path in d.castFailed then Some(CastMessage(path))
    else if path == "name" then NameError(d.product)
    else if path == "price" then (if d.product.price.None? then Some(PriceRequired) else None)
    else if path == "imageCover" then (if !PresentString(d.product.imageCover) then Some(CoverRequired) else None)
    else None
  }

  /** The error of one path as a list of at most one entry. */
  function PathErrors(d: ProductDoc, path: string): (errs: seq<FieldError>)
    ensures |errs| <= 1
    ensures errs == [] <==> PathError(d, path).None?
    ensures errs != [] ==> errs[0] == FieldError(path, PathError(d, path).value)
  {
    match PathError(d, path)
    case Some(m) => [FieldError(path, m)]
    case None => []
  }

  /** `doc.validate()`: one error per failing path. The model lists the paths in schema
      order; Mongoose orders them by when each error is recorded. */
  function Validate(d: ProductDoc): seq<FieldError> {
    PathErrors(d, "name") + PathErrors(d, "price") + PathErrors(d, "description") + PathErrors(d, "imageCover")
  }

  /** What a stored product satisfies: a name of 5 to 100 UTF-16 code units, a price,
      a cover image, and every String path cast. */
  predicate ValidProduct(d: ProductDoc) {
    && (forall path :: path in ProductPaths ==> path !in d.castFailed)
    && PresentString(d.product.name)
    && MinNameLength <= Utf16Length(d.product.name.value) <= MaxNameLength
    && d.product.price.Some?
    && PresentString(d.product.imageCover)
  }

  /** The name validators accept exactly the names of 5 to 100 code units. */
  lemma NameErrorIff(p: Product)
    ensures NameError(p).None? <==> PresentString(p.name) && MinNameLength <= Utf16Length(p.name.value) <= MaxNameLength
    ensures PresentString(p.name) && Utf16Length(p.name.value) < MinNameLength ==> NameError(p) == Some(NameTooShort)
    ensures PresentString(p.name) && Utf16Length(p.name.value) > MaxNameLength ==> NameError(p) == Some(NameTooLong)
  {
  }

  /** A document validates with no error exactly when each path reports none. */
  lemma ValidateEmpty(d: ProductDoc)
    ensures Validate(d) == [] <==> forall path :: path in ProductPaths ==> PathError(d, path).None?
  {
    if Validate(d) == [] {
      assert PathErrors(d, "name") == [] && PathErrors(d, "price") == [];
      assert PathErrors(d, "description") == [] && PathErrors(d, "imageCover") == [];
    }
  }

  /** A document validates with no error exactly when it is a valid product, and the
      errors name each path once, in the model's schema order. */
  lemma ValidateIff(d: ProductDoc)
    ensures Validate(d) == [] <==> ValidProduct(d)
    ensures DistinctPaths(Validate(d))
    ensures forall i :: 0 <= i < |Validate(d)| ==> Validate(d)[i].path in ProductPaths
  {
    ValidateEmpty(d);
    NameErrorIff(d.product);
    var e1, e2, e3, e4 := PathErrors(d, "name"), PathErrors(d, "price"), PathErrors(d, "description"),
                          PathErrors(d, "imageCover");
    var errs := Validate(d);
    assert errs == e1 + e2 + e3 + e4;
    forall i | 0 <= i < |errs|
      ensures errs[i].path in ProductPaths
      ensures errs[i].path == "name" <==> i < |e1|
      ensures errs[i].path == "price" <==> |e1| <= i < |e1| + |e2|
      ensures errs[i].path == "description" <==> |e1| + |e2| <= i < |e1| + |e2| + |e3|
    {
    }
  }

  /** `save()`: validation; a failure is the ValidationError for "Product". */
  function Save(d: ProductDoc, trace: string): (r: Result<Product, ErrObj>)
    ensures r.Success? <==> ValidProduct(d)
    ensures r.Success? ==> r.value == d.product
    ensures r.Failure? ==> r.error == ValidationError("Product", Validate(d), trace)
  {
    ValidateIff(d);
    var errs := Validate(d);
    if |errs| > 0 then Failure(ValidationError("Product", errs, trace)) else Success(d.product)
  }

  /** `Product.create(fields)` */
  function Create(f: NewProductFields, defaultCreatedAt: int, trace: string): Result<Product, ErrObj> {
    Save(NewProduct(f, defaultCreatedAt), trace)
  }

  /** A new document is a valid product exactly when the trimmed name has 5 to 100 code
      units, a price and a cover image are given, and no String path holds a value it cannot cast. */
  lemma NewProductValidIff(f: NewProductFields, defaultCreatedAt: int)
    ensures ValidProduct(NewProduct(f, defaultCreatedAt)) <==>
        && Castable(f.name) && MinNameLength <= Utf16Length(Trim(CastText(f.name))) <= MaxNameLength
        && f.price != Undefined && f.price != Null
        && Castable(f.imageCover) && |CastText(f.imageCover)| > 0
        && !CastFails(f.description)
  {
    var d := NewProduct(f, defaultCreatedAt);
    assert "name" in ProductPaths && "description" in ProductPaths && "imageCover" in ProductPaths;
    assert FieldValue(f, "name") == f.name && FieldValue(f, "description") == f.description;
    assert FieldValue(f, "imageCover") == f.imageCover;
  }

  /** A product is created exactly when its document is valid; the stored name and
      description are the trimmed texts, and a failure lists the failing paths. */
  lemma CreateIff(f: NewProductFields, defaultCreatedAt: int, trace: string)
    ensures var r := Create(f, defaultCreatedAt, trace);
      r.Success? <==>
        && Castable(f.name) && MinNameLength <= Utf16Length(Trim(CastText(f.name))) <= MaxNameLength
        && f.price != Undefined && f.price != Null
        && Castable(f.imageCover) && |CastText(f.imageCover)| > 0
        && !CastFails(f.description)
    ensures var r := Create(f, defaultCreatedAt, trace);
      r.Success? ==> && r.value.name == Some(Trim(CastText(f.name)))
                     && (f.description.Str? ==> r.value.description == Some(Trim(f.description.s)))
                     && (f.description == Undefined ==> r.value.description.None?)
    ensures var r := Create(f, defaultCreatedAt, trace);
      r.Failure? ==> r.error == ValidationError("Product", Validate(NewProduct(f, defaultCreatedAt)), trace)
  {
    NewProductValidIff(f, defaultCreatedAt);
  }

  /** Surrounding whitespace never decides the length checks: a name and its trimmed
      form give the same name error. */
  lemma NameTrimmedFirst(f: NewProductFields, g: NewProductFields, t: int)
    requires f.name.Str? && g.name == Str(Trim(f.name.s))
    ensures NewProduct(f, t).product.name == NewProduct(g, t).product.name
    ensures NameError(NewProduct(f, t).product) == NameError(NewProduct(g, t).product)
  {
    TrimIdempotent(f.name.s);
  }

  /** A name of exactly 5 code units passes although the message asks for "more than 5";
      4 fails. Likewise 100 passes and 101 fails. */
  lemma NameLengthEdges(p: Product)
    requires p.name.Some?
    ensures Utf16Length(p.name.value) == 4 ==> NameError(p) == Some(NameTooShort)
    ensures Utf16Length(p.name.value) == 5 ==> NameError(p).None?
    ensures Utf16Length(p.name.value) == 100 ==> NameError(p).None?
    ensures Utf16Length(p.name.value) == 101 ==> NameError(p) == Some(NameTooLong)
  {
    NameErrorIff(p);
  }
}

/** The creation-time default and its correction. */
module ProductModelProperties {
  import opened Wrappers
  import opened Js
  import opened Mongoose
  import opened ProductModel

  /** `default: Date.now()` is evaluated once, when the schema is defined: every product
      created without a date gets that same time, however much later it is created. */
  lemma CreatedAtFixedAtDefinition(f: NewProductFields, g: NewProductFields, definedAt: int)
    requires f.createdAt.None? && g.createdAt.None?
    ensures NewProduct(f, definedAt).product.createdAt == NewProduct(g, definedAt).product.createdAt == Some(definedAt)
  {
  }

  /** Corrected: `default: Date.now` is called for each new document. */
  function NewProductFixed(f: NewProductFields, now: int): (d: ProductDoc)
    ensures f.createdAt.None? ==> d.product.createdAt == Some(now)
    ensures f.createdAt.Some? ==> d.product.createdAt == f.createdAt
  {
    NewProduct(f, now)
  }

  /** Corrected: a product created without a date is stamped with its creation time,
      and validation is unaffected. */
  lemma CreatedAtIsCreationTime(f: NewProductFields, now: int, definedAt: int)
    requires f.createdAt.None?
    ensures NewProductFixed(f, now).product.createdAt == Some(now)
    ensures ValidProduct(NewProductFixed(f, now)) <==> ValidProduct(NewProduct(f, definedAt))
    ensures NewProductFixed(f, now).product.(createdAt := None) == NewProduct(f, definedAt).product.(createdAt := None)
  {
  }
}
