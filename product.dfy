/** The product schema (`clothing-store-backend/models/product.js`): the
    category and size enumerations, the non-negative price, the required
    fields, the trimmed name and the `createdAt` default, as a validation
    function from an incoming document to a stored product. Prices are
    integer cents. */
module Product {
  import opened Common

  datatype Category = Men | Women | Kids
  datatype Size = S | M | L | XL

  function CategoryName(c: Category): string {
    match c
    case Men => "Men"
    case Women => "Women"
    case Kids => "Kids"
  }

  function SizeName(z: Size): string {
    match z
    case S => "S"
    case M => "M"
    case L => "L"
    case XL => "XL"
  }

  /** The `enum` check on `category`: the category spelled exactly `s`, if any. */
  function ParseCategory(s: string): (r: Option<Category>)
    ensures r.Some? ==> CategoryName(r.value) == s
    ensures r.None? ==> forall c: Category :: CategoryName(c) != s
  {
    if s == "Men" then Some(Men)
    else if s == "Women" then Some(Women)
    else if s == "Kids" then Some(Kids)
    else None
  }

  /** The `enum` check on an entry of `sizes`: the size spelled exactly `s`, if any. */
  function ParseSize(s: string): (r: Option<Size>)
    ensures r.Some? ==> SizeName(r.value) == s
    ensures r.None? ==> forall z: Size :: SizeName(z) != s
  {
    if s == "S" then Some(S)
    else if s == "M" then Some(M)
    else if s == "L" then Some(L)
    else if s == "XL" then Some(XL)
    else None
  }

  /** The characters `String.prototype.trim` removes: ECMAScript WhiteSpace and LineTerminator. */
  predicate IsSpace(c: char) {
    c == '\t' || c == '\n' || c == '\U{000B}' || c == '\U{000C}' || c == '\r' || c == ' '
    || c == '\U{00A0}' || c == '\U{1680}' || ('\U{2000}' <= c <= '\U{200A}')
    || c == '\U{2028}' || c == '\U{2029}' || c == '\U{202F}' || c == '\U{205F}'
    || c == '\U{3000}' || c == '\U{FEFF}'
  }

  /** Drops the leading white space: what is left is a suffix that starts with a non-space. */
  function TrimStart(s: string): (r: string)
    ensures |r| <= |s| && r == s[|s| - |r|..]
    ensures forall i :: 0 <= i < |s| - |r| ==> IsSpace(s[i])
    ensures r == [] || !IsSpace(r[0])
  {
    if s != [] && IsSpace(s[0]) then TrimStart(s[1..]) else s
  }

  /** Drops the trailing white space: what is left is a prefix that ends with a non-space. */
  function TrimEnd(s: string): (r: string)
    ensures |r| <= |s| && r == s[..|r|]
    ensures forall i :: |r| <= i < |s| ==> IsSpace(s[i])
    ensures r == [] || !IsSpace(r[|r| - 1])
  {
    if s != [] && IsSpace(s[|s| - 1]) then TrimEnd(s[..|s| - 1]) else s
  }

  /** `trim: true` on `name`: the infix of `s` left after removing white space at both ends. */
  function Trim(s: string): (r: string)
    ensures var k := |s| - |TrimStart(s)|;
      && k + |r| <= |s| && r == s[k..k + |r|]
      && (forall i :: 0 <= i < k ==> IsSpace(s[i]))
      && (forall i :: k + |r| <= i < |s| ==> IsSpace(s[i]))
    ensures r == [] || (!IsSpace(r[0]) && !IsSpace(r[|r| - 1]))
  {
    TrimEnd(TrimStart(s))
  }

  /** Trimming a trimmed name changes nothing, so a stored name is a fixed point of the setter. */
  lemma TrimIdempotent(s: string)
    ensures Trim(Trim(s)) == Trim(s)
  {
    var r := Trim(s);
    assert TrimStart(r) == r;
    assert TrimEnd(r) == r;
  }

  /** A name trims to the empty string (and so fails `required`) exactly when it is all white space. */
  lemma TrimEmptyIffBlank(s: string)
    ensures Trim(s) == [] <==> forall i :: 0 <= i < |s| ==> IsSpace(s[i])
  {
  }

  /** A product as the database stores it once the schema has accepted it. */
  datatype Product = Product(
    name: string,
    description: string,
    price: nat,
    imageUrl: string,
    category: Category,
    sizes: seq<Size>,
    createdAt: int)

  /** A product document as submitted: any field may be missing; category and sizes are free strings. */
  datatype ProductDoc = ProductDoc(
    name: Option<string>,
    description: Option<string>,
    price: Option<int>,
    imageUrl: Option<string>,
    category: Option<string>,
    sizes: seq<string>,
    createdAt: Option<int>)

  /** The document paths a validation error can be reported on (`sizes.<i>` for an entry). */
  datatype Path = NamePath | DescriptionPath | PricePath | ImageUrlPath | CategoryPath | SizePath(index: nat)

  datatype Validation = Accepted(product: Product) | Rejected(errors: set<Path>)

  /** The schema's invariant on a stored product. */
  predicate WellFormed(p: Product) {
    && p.name != []
    && Trim(p.name) == p.name
    && p.description != []
    && p.imageUrl != []
  }

  /** Every `required`, `min` and `enum` validator of the schema passes on `d` (after trimming). */
  predicate Acceptable(d: ProductDoc) {
    && d.name.Some? && Trim(d.name.value) != []
    && Given(d.description)
    && d.price.Some? && d.price.value >= 0
    && Given(d.imageUrl)
    && d.category.Some? && ParseCategory(d.category.value).Some?
    && forall i :: 0 <= i < |d.sizes| ==> ParseSize(d.sizes[i]).Some?
  }

  function SizeErrors(ss: seq<string>): (r: set<Path>)
    ensures forall i: nat :: SizePath(i) in r <==> i < |ss| && ParseSize(ss[i]).None?
    ensures forall q :: q in r ==> q.SizePath?
  {
    set i | 0 <= i < |ss| && ParseSize(ss[i]).None? :: SizePath(i)
  }

  /** The failing paths among the scalar fields, one per failing field. */
  function FieldErrors(d: ProductDoc): (r: set<Path>)
    ensures NamePath in r <==> d.name.None? || Trim(d.name.value) == []
    ensures DescriptionPath in r <==> !Given(d.description)
    ensures PricePath in r <==> d.price.None? || d.price.value < 0
    ensures ImageUrlPath in r <==> !Given(d.imageUrl)
    ensures CategoryPath in r <==> d.category.None? || ParseCategory(d.category.value).None?
    ensures forall q :: q in r ==> !q.SizePath?
  {
    var name := if d.name.None? || Trim(d.name.value) == [] then {NamePath} else {};
    var description := if !Given(d.description) then {DescriptionPath} else {};
    var price := if d.price.None? || d.price.value < 0 then {PricePath} else {};
    var image := if !Given(d.imageUrl) then {ImageUrlPath} else {};
    var category := if d.category.None? || ParseCategory(d.category.value).None? then {CategoryPath} else {};
    name + description + price + image + category
  }

  /** The failing paths: one per failing field, each entry of `sizes` on its own path. */
  function Errors(d: ProductDoc): (r: set<Path>)
    ensures NamePath in r <==> d.name.None? || Trim(d.name.value) == []
    ensures DescriptionPath in r <==> !Given(d.description)
    ensures PricePath in r <==> d.price.None? || d.price.value < 0
    ensures ImageUrlPath in r <==> !Given(d.imageUrl)
    ensures CategoryPath in r <==> d.category.None? || ParseCategory(d.category.value).None?
    ensures forall i: nat :: SizePath(i) in r <==> i < |d.sizes| && ParseSize(d.sizes[i]).None?
    ensures r == {} <==> Acceptable(d)
  {
    var fields := FieldErrors(d);
    var sizes := SizeErrors(d.sizes);
    assert (forall i :: 0 <= i < |d.sizes| ==> ParseSize(d.sizes[i]).Some?) <==> sizes == {} by {
      if exists i :: 0 <= i < |d.sizes| && ParseSize(d.sizes[i]).None? {
        var i :| 0 <= i < |d.sizes| && ParseSize(d.sizes[i]).None?;
        assert SizePath(i) in sizes;
      }
    }
    assert fields == {} <==> (NamePath !in fields && DescriptionPath !in fields && PricePath !in fields
      && ImageUrlPath !in fields && CategoryPath !in fields) by {
      if fields != {} {
        var q :| q in fields;
        assert !q.SizePath?;
      }
    }
    fields + sizes
  }

  function ParseSizes(ss: seq<string>): (r: seq<Size>)
    requires forall i :: 0 <= i < |ss| ==> ParseSize(ss[i]).Some?
    ensures |r| == |ss|
    ensures forall i :: 0 <= i < |ss| ==> SizeName(r[i]) == ss[i]
  {
    if ss == [] then [] else [ParseSize(ss[0]).value] + ParseSizes(ss[1..])
  }

  /** Saving a document: the trim setter runs first, then every validator; `createdAt` defaults to `now`.
      A rejection names exactly the failing paths (see `Errors`). */
  function Validate(d: ProductDoc, now: int): (v: Validation)
    ensures v.Accepted? <==> Acceptable(d)
    ensures v.Rejected? ==> v.errors == Errors(d) && v.errors != {}
    ensures v.Accepted? ==>
      && WellFormed(v.product)
      && v.product.name == Trim(d.name.value)
      && v.product.description == d.description.value
      && v.product.price == d.price.value
      && v.product.imageUrl == d.imageUrl.value
      && CategoryName(v.product.category) == d.category.value
      && |v.product.sizes| == |d.sizes|
      && (forall i :: 0 <= i < |d.sizes| ==> SizeName(v.product.sizes[i]) == d.sizes[i])
      && v.product.createdAt == d.createdAt.GetOr(now)
  {
    if Acceptable(d) then
      TrimIdempotent(d.name.value);
      Accepted(Product(
        Trim(d.name.value),
        d.description.value,
        d.price.value,
        d.imageUrl.value,
        ParseCategory(d.category.value).value,
        ParseSizes(d.sizes),
        d.createdAt.GetOr(now)))
    else
      Rejected(Errors(d))
  }

  /** The document a stored product would be written back as. */
  function ToDoc(p: Product): ProductDoc {
    ProductDoc(Some(p.name), Some(p.description), Some(p.price), Some(p.imageUrl),
      Some(CategoryName(p.category)), seq(|p.sizes|, i requires 0 <= i < |p.sizes| => SizeName(p.sizes[i])),
      Some(p.createdAt))
  }

  /** Each category's name parses back to that category. */
  lemma ParseCategoryName(c: Category)
    ensures ParseCategory(CategoryName(c)) == Some(c)
  {
  }

  /** Each size's name parses back to that size. */
  lemma ParseSizeName(z: Size)
    ensures ParseSize(SizeName(z)) == Some(z)
  {
  }

  /** Round trip: the schema accepts every well-formed product unchanged, whatever the clock says. */
  lemma ValidateToDoc(p: Product, now: int)
    requires WellFormed(p)
    ensures Validate(ToDoc(p), now) == Accepted(p)
  {
    var d := ToDoc(p);
    ParseCategoryName(p.category);
    forall i | 0 <= i < |p.sizes| ensures ParseSize(d.sizes[i]).Some? {
      ParseSizeName(p.sizes[i]);
    }
    assert Acceptable(d);
    var ss := ParseSizes(d.sizes);
    forall i | 0 <= i < |p.sizes| ensures ss[i] == p.sizes[i] {
      ParseSizeName(ss[i]);
      ParseSizeName(p.sizes[i]);
    }
    assert ss == p.sizes;
  }
}
