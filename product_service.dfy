/** The product catalog: lookup, the trending slice, and create, update and
    delete. The S3 upload is a parameter: the URL it returns, or the error
    it raises. */
module ProductService {
  import opened Common
  import opened Domain

  /** The product response: every field of the document except
      `trending`. */
  datatype ProductView = ProductView(
    id: string, name: string, description: string, brand: string, category: string, gender: string,
    weight: string, quantity: int, image: string, rating: Option<real>, price: int, newPrice: int)

  /** `ProductResponseDTO.toResponse`. */
  function ToProductView(p: Product): ProductView {
    ProductView(p.id, p.name, p.description, p.brand, p.category, p.gender, p.weight, p.quantity,
                p.image, p.rating, p.price, p.newPrice)
  }

  /** The response drops only `trending`: two products that differ in no
      other field have the same response, and the response keeps every
      other field. */
  lemma ProductViewDropsOnlyTrending(p: Product, q: Product)
    ensures ToProductView(p) == ToProductView(q) <==> p.(trending := q.trending) == q
  {
    if ToProductView(p) == ToProductView(q) {
      assert p.id == q.id && p.name == q.name && p.image == q.image && p.rating == q.rating;
    }
  }

  /** `products.map(ProductResponseDTO.toResponse)`. */
  function ProductViews(ps: seq<Product>): (r: seq<ProductView>)
    ensures |r| == |ps|
    ensures forall k :: 0 <= k < |ps| ==> r[k] == ToProductView(ps[k])
  {
    seq(|ps|, k requires 0 <= k < |ps| => ToProductView(ps[k]))
  }

  /** `retrieveProductById`: a lookup error surfaces as NotFound, because
      the missing-document check comes first. */
  function RetrieveProductById(products: map<string, Product>, id: string, call: Call): (r: Result<ProductView>)
    ensures r.Success? <==> Resolves(call, id, products)
    ensures r.Success? ==> r.value == ToProductView(products[id])
    ensures r.Failure? ==> r.error == NotFound
  {
    if !(call.Succeeds? && id in products) then Failure(NotFound) else Success(ToProductView(products[id]))
  }

  /** `find({}).limit(4)` in natural order. */
  function FirstProducts(productOrder: seq<string>, products: map<string, Product>, n: nat): (r: seq<Product>)
    requires forall k :: 0 <= k < |productOrder| ==> productOrder[k] in products
    ensures |r| == if |productOrder| < n then |productOrder| else n
    ensures forall k :: 0 <= k < |r| ==> r[k] == products[productOrder[k]]
  {
    if n == 0 || productOrder == [] then []
    else [products[productOrder[0]]] + FirstProducts(productOrder[1..], products, n - 1)
  }

  const TrendingLimit: nat := 4

  /** `retrieveTrendingProducts`: the responses of the first four products
      in natural order, whatever their `trending` flag; `[]` for an empty
      catalog; a store error is an InternalError. */
  function RetrieveTrendingProducts(productOrder: seq<string>, products: map<string, Product>, call: Call)
    : (r: Result<seq<ProductView>>)
    requires forall k :: 0 <= k < |productOrder| ==> productOrder[k] in products
    ensures r.Failure? <==> call.Fails?
    ensures r.Failure? ==> r.error == InternalError
    ensures r.Success? ==> |r.value| <= TrendingLimit && (productOrder == [] ==> r.value == [])
    ensures r.Success? ==> r.value == ProductViews(FirstProducts(productOrder, products, TrendingLimit))
  {
    if call.Fails? then Failure(InternalError)
    else Success(ProductViews(FirstProducts(productOrder, products, TrendingLimit)))
  }

  /** The trending list does not look at the `trending` flag, and the
      response does not carry it: flipping it on any product gives the very
      same response. */
  lemma TrendingIgnoresFlag(productOrder: seq<string>, products: map<string, Product>, id: string, flag: Option<bool>)
    requires forall k :: 0 <= k < |productOrder| ==> productOrder[k] in products
    requires id in products
    ensures var flipped := products[id := products[id].(trending := flag)];
      RetrieveTrendingProducts(productOrder, flipped, Succeeds) == RetrieveTrendingProducts(productOrder, products, Succeeds)
  {
    var flipped := products[id := products[id].(trending := flag)];
    var before := RetrieveTrendingProducts(productOrder, products, Succeeds).value;
    var after := RetrieveTrendingProducts(productOrder, flipped, Succeeds).value;
    var fb := FirstProducts(productOrder, products, TrendingLimit);
    var fa := FirstProducts(productOrder, flipped, TrendingLimit);
    forall k | 0 <= k < |before|
      ensures after[k] == before[k]
    {
      assert fa[k] == flipped[productOrder[k]] && fb[k] == products[productOrder[k]];
      ProductViewDropsOnlyTrending(fa[k], fb[k]);
    }
    assert after == before;
  }

  /** The fields of a create-product request; `image` is the uploaded file
      and is replaced by its URL. */
  datatype ProductData = ProductData(
    name: string, description: string, brand: string, category: string, gender: string,
    weight: string, quantity: int, rating: Option<real>, price: int, newPrice: int,
    trending: Option<bool>)

  function NewProduct(id: string, d: ProductData, imageUrl: string): Product {
    Product(id, d.name, d.description, d.brand, d.category, d.gender, d.weight, d.quantity,
            imageUrl, d.rating, d.price, d.newPrice, d.trending)
  }

  /** A product stored by `createNewProduct` is read back by
      `retrieveProductById` with the request's fields and the uploaded
      image's URL. */
  lemma RetrieveAfterCreate(products: map<string, Product>, newId: string, productData: ProductData, imageUrl: string)
    ensures var d := productData;
      RetrieveProductById(products[newId := NewProduct(newId, d, imageUrl)], newId, Succeeds)
        == Success(ProductView(newId, d.name, d.description, d.brand, d.category, d.gender, d.weight,
                               d.quantity, imageUrl, d.rating, d.price, d.newPrice))
  {
  }

  /** `createNewProduct`. The upload comes first: its error ends the call
      with nothing stored. The save is classified like every save. A new
      product goes to the end of the natural order. */
  method CreateNewProduct(db: Database, productData: ProductData, newId: string,
                          upload: Result<string>, saveCall: Call)
    returns (o: Outcome)
    requires db.Valid()
    modifies db
    ensures db.Valid()
    ensures db.orders == old(db.orders) && db.users == old(db.users) && db.addresses == old(db.addresses)
    ensures upload.Failure? ==>
      o == Fail(upload.error) && db.products == old(db.products) && db.productOrder == old(db.productOrder)
    ensures upload.Success? ==>
      var saveError := SaveError(newId in old(db.products), saveCall);
      && (saveError.Some? ==>
            o == Fail(saveError.value) && db.products == old(db.products) && db.productOrder == old(db.productOrder))
      && (saveError.None? ==>
            && o == Pass
            && db.products == old(db.products)[newId := NewProduct(newId, productData, upload.value)]
            && db.productOrder == old(db.productOrder) + [newId])
  {
    if upload.Failure? {
      return Fail(upload.error);
    }
    var imageUrl := upload.value;
    var newProduct := Product(newId, productData.name, productData.description, productData.brand,
                              productData.category, productData.gender, productData.weight,
                              productData.quantity, imageUrl, productData.rating, productData.price,
                              productData.newPrice, productData.trending);
    var saveError := SaveError(newId in db.products, saveCall);
    if saveError.Some? {
      return Fail(saveError.value);
    }
    assert newId !in db.productOrder;
    PushKeepsDistinct(db.productOrder, newId);
    db.products := db.products[newId := newProduct];
    db.productOrder := db.productOrder + [newId];
    o := Pass;
  }

  /** The fields of an update request; absent ones are left as they are. */
  datatype ProductPatch = ProductPatch(
    name: Option<string>, description: Option<string>, brand: Option<string>,
    category: Option<string>, gender: Option<string>, weight: Option<string>,
    quantity: Option<int>, rating: Option<real>, price: Option<int>, newPrice: Option<int>,
    trending: Option<bool>)

  function Or<T>(v: Option<T>, current: T): T {
    if v.Some? then v.value else current
  }

  /** The product after `findByIdAndUpdate` with a patch and, when a new
      image was uploaded, its URL. */
  function ApplyProductPatch(p: Product, patch: ProductPatch, imageUrl: Option<string>): (r: Product)
    ensures r.id == p.id
    ensures r.image == if imageUrl.Some? then imageUrl.value else p.image
    ensures r.name == (if patch.name.Some? then patch.name.value else p.name)
    ensures r.description == (if patch.description.Some? then patch.description.value else p.description)
    ensures r.brand == (if patch.brand.Some? then patch.brand.value else p.brand)
    ensures r.category == (if patch.category.Some? then patch.category.value else p.category)
    ensures r.gender == (if patch.gender.Some? then patch.gender.value else p.gender)
    ensures r.weight == (if patch.weight.Some? then patch.weight.value else p.weight)
    ensures r.quantity == (if patch.quantity.Some? then patch.quantity.value else p.quantity)
    ensures r.rating == (if patch.rating.Some? then patch.rating else p.rating)
    ensures r.price == (if patch.price.Some? then patch.price.value else p.price)
    ensures r.newPrice == (if patch.newPrice.Some? then patch.newPrice.value else p.newPrice)
    ensures r.trending == (if patch.trending.Some? then patch.trending else p.trending)
  {
    Product(p.id, Or(patch.name, p.name), Or(patch.description, p.description), Or(patch.brand, p.brand),
            Or(patch.category, p.category), Or(patch.gender, p.gender), Or(patch.weight, p.weight),
            Or(patch.quantity, p.quantity), Or(imageUrl, p.image),
            if patch.rating.Some? then patch.rating else p.rating,
            Or(patch.price, p.price), Or(patch.newPrice, p.newPrice),
            if patch.trending.Some? then patch.trending else p.trending)
  }

  /** A patch applied twice is applied once. */
  lemma ProductPatchIdempotent(p: Product, patch: ProductPatch, imageUrl: Option<string>)
    ensures ApplyProductPatch(ApplyProductPatch(p, patch, imageUrl), patch, imageUrl)
         == ApplyProductPatch(p, patch, imageUrl)
  {
  }

  /** `updateProduct`. `imageUpload` is None when the request carries no new
      image and the upload's result otherwise; an upload error ends the call
      with nothing changed. The update's error is checked before its missing
      document. */
  method UpdateProduct(db: Database, productId: string, patch: ProductPatch,
                       imageUpload: Option<Result<string>>, updateCall: Call)
    returns (o: Outcome)
    requires db.Valid()
    modifies db
    ensures db.Valid()
    ensures db.orders == old(db.orders) && db.users == old(db.users) && db.addresses == old(db.addresses)
    ensures db.productOrder == old(db.productOrder)
    ensures imageUpload.Some? && imageUpload.value.Failure? ==>
      o == Fail(imageUpload.value.error) && db.products == old(db.products)
    ensures !(imageUpload.Some? && imageUpload.value.Failure?) ==>
      && (updateCall.Fails? ==> o == Fail(InternalError) && db.products == old(db.products))
      && (updateCall.Succeeds? && productId !in old(db.products) ==> o == Fail(NotFound) && db.products == old(db.products))
      && (updateCall.Succeeds? && productId in old(db.products) ==>
            var url := if imageUpload.Some? then Some(imageUpload.value.value) else None;
            o == Pass && db.products == old(db.products)[productId := ApplyProductPatch(old(db.products)[productId], patch, url)])
  {
    var imageUrl: Option<string> := None;
    if imageUpload.Some? {
      if imageUpload.value.Failure? {
        return Fail(imageUpload.value.error);
      }
      imageUrl := Some(imageUpload.value.value);
    }
    if updateCall.Fails? {
      return Fail(InternalError);
    }
    if productId !in db.products {
      return Fail(NotFound);
    }
    db.products := db.products[productId := ApplyProductPatch(db.products[productId], patch, imageUrl)];
    o := Pass;
  }

  /** `deleteProduct`: the store error first (InternalError), then the
      missing document (NotFound); otherwise the product leaves the table
      and the natural order. */
  method DeleteProduct(db: Database, productId: string, deleteCall: Call)
    returns (o: Outcome)
    requires db.Valid()
    modifies db
    ensures db.Valid()
    ensures db.orders == old(db.orders) && db.users == old(db.users) && db.addresses == old(db.addresses)
    ensures deleteCall.Fails? ==>
      o == Fail(InternalError) && db.products == old(db.products) && db.productOrder == old(db.productOrder)
    ensures deleteCall.Succeeds? && productId !in old(db.products) ==>
      o == Fail(NotFound) && db.products == old(db.products) && db.productOrder == old(db.productOrder)
    ensures deleteCall.Succeeds? && productId in old(db.products) ==>
      && o == Pass
      && db.products == old(db.products) - {productId}
      && db.productOrder == Pull(old(db.productOrder), productId)
  {
    if deleteCall.Fails? {
      return Fail(InternalError);
    }
    if productId !in db.products {
      return Fail(NotFound);
    }
    PullKeepsDistinct(db.productOrder, productId);
    PullMembers(db.productOrder, productId);
    var remaining := Pull(db.productOrder, productId);
    assert forall k :: 0 <= k < |remaining| ==> remaining[k] in db.productOrder && remaining[k] != productId;
    db.products := db.products - {productId};
    db.productOrder := remaining;
    o := Pass;
  }

  /** After a product is deleted, populating a cart or wishlist that still
      references it leaves it out: the user view never shows a deleted
      product. */
  lemma {:induction false} DeletedProductNotShown(ids: seq<string>, products: map<string, Product>, productId: string)
    requires forall id :: id in products ==> products[id].id == id
    ensures forall k :: 0 <= k < |Populate(ids, products - {productId})| ==>
      Populate(ids, products - {productId})[k].id != productId
  {
    if ids != [] {
      DeletedProductNotShown(ids[1..], products, productId);
      var rest := Populate(ids[1..], products - {productId});
      var all := Populate(ids, products - {productId});
      if ids[0] in products - {productId} {
        assert all == [products[ids[0]]] + rest;
      } else {
        assert all == rest;
      }
    }
  }
}
