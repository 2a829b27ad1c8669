/** The domain service: validation, guards and error translation on top of
    the repository, and the consumer-price aggregation. */
module ProductService {
  import opened Domain
  import opened ProductRepository

  predicate IsDigit(c: char)
  {
    '0' <= c <= '9'
  }

  function DigitValue(c: char): nat
    requires IsDigit(c)
  {
    (c as int) - ('0' as int)
  }

  predicate IsLeapYear(year: int)
  {
    year % 4 == 0 && (year % 100 != 0 || year % 400 == 0)
  }

  function DaysIn(month: int, year: int): int
    requires 1 <= month <= 12
  {
    if month == 2 then (if IsLeapYear(year) then 29 else 28)
    else if month == 4 || month == 6 || month == 9 || month == 11 then 30
    else 31
  }

  /** Whether `s` parses under the layout "02/01/2006": two-digit day,
      two-digit month and four-digit year separated by slashes, nothing
      after, the month in 1..12 and the day within that month. This stands
      in for the Go standard library's date parser, which is not part of
      this model. */
  predicate ValidExpiration(s: string): (ok: bool)
    ensures ok ==> |s| == 10 && s[2] == '/' && s[5] == '/'
    ensures ok ==> forall i :: 0 <= i < 10 && i != 2 && i != 5 ==> IsDigit(s[i])
  {
    |s| == 10 && s[2] == '/' && s[5] == '/' &&
    IsDigit(s[0]) && IsDigit(s[1]) && IsDigit(s[3]) && IsDigit(s[4]) &&
    IsDigit(s[6]) && IsDigit(s[7]) && IsDigit(s[8]) && IsDigit(s[9]) &&
    var day := 10 * DigitValue(s[0]) + DigitValue(s[1]);
    var month := 10 * DigitValue(s[3]) + DigitValue(s[4]);
    var year := 1000 * DigitValue(s[6]) + 100 * DigitValue(s[7]) + 10 * DigitValue(s[8]) + DigitValue(s[9]);
    1 <= month <= 12 && 1 <= day <= DaysIn(month, year)
  }

  /** Some stored product other than `product` (by identifier) already
      uses its code value. */
  predicate CodeTaken(s: seq<Product>, product: Product)
  {
    exists i :: 0 <= i < |s| && s[i].codeValue == product.codeValue && s[i].id != product.id
  }

  /** The outcome of the service's validation against the stored `s`: the
      scan for a code collision returns at the first one; only when it
      finds none is the expiration date checked. */
  function Validate(s: seq<Product>, product: Product): (r: Option<Error>)
    ensures r == Some(ProductAlreadyExists) <==> CodeTaken(s, product)
    ensures r == Some(FormatDate) <==> !CodeTaken(s, product) && !ValidExpiration(product.expiration)
    ensures r == None <==> !CodeTaken(s, product) && ValidExpiration(product.expiration)
  {
    if s == [] then
      if ValidExpiration(product.expiration) then None else Some(FormatDate)
    else if product.codeValue == s[0].codeValue && product.id != s[0].id then
      Some(ProductAlreadyExists)
    else
      assert forall i :: 1 <= i < |s| ==> s[i] == s[1..][i - 1];
      Validate(s[1..], product)
  }

  /** Any storage failure reported by FindById or Delete becomes
      ProductNotFound. */
  function AsNotFound(err: Option<Error>): (r: Option<Error>)
    ensures r.None? <==> err.None?
    ensures r.Some? ==> r.value == ProductNotFound
  {
    if err.Some? then Some(ProductNotFound) else None
  }

  /** Any storage failure reported by Search or ConsumerPrice becomes
      InternalServerError. */
  function AsInternal(err: Option<Error>): (r: Option<Error>)
    ensures r.None? <==> err.None?
    ensures r.Some? ==> r.value == InternalServerError
  {
    if err.Some? then Some(InternalServerError) else None
  }

  /** The sum of the prices, accumulated front to back. Its properties are
      the lemmas SumNonNegative and SumAppend, so that the proof of
      ConsumerPrice does not carry them. */
  function Sum(s: seq<Product>): real
  {
    if s == [] then 0.0 else Sum(s[..|s| - 1]) + s[|s| - 1].price
  }

  /** The consumer markup for `count` matched products, as one table:
      21% below 10, 17% strictly between 10 and 20, 15% above 20, and none
      at exactly 10 or 20. The lemma MarkupTiers states the tiers. */
  function Markup(count: nat): real
  {
    if count < 10 then 121.0 / 100.0
    else if 10 < count < 20 then 117.0 / 100.0
    else if count > 20 then 115.0 / 100.0
    else 1.0
  }

  /** No two stored products with different identifiers share a code. */
  predicate UniqueCodes(s: seq<Product>)
  {
    forall i, j :: 0 <= i < |s| && 0 <= j < |s| && s[i].codeValue == s[j].codeValue ==> s[i].id == s[j].id
  }

  class DefaultService {
    const storage: SliceBasedRepository

    constructor (storage: SliceBasedRepository)
      ensures this.storage == storage
    {
      this.storage := storage;
    }

    /** The service's validation over the current products: the first code
        collision wins, then the date. */
    method Validations(product: Product) returns (err: Option<Error>)
      ensures err == Validate(storage.products, product)
    {
      var products, _ := storage.GetAll();
      for i := 0 to |products|
        invariant Validate(products[i..], product) == Validate(products, product)
      {
        if product.codeValue == products[i].codeValue && product.id != products[i].id {
          return Some(ProductAlreadyExists);
        }
        assert products[i..][1..] == products[i + 1..];
      }
      if !ValidExpiration(product.expiration) {
        return Some(FormatDate);
      }
      return None;
    }

    /** Validates, then lets storage assign the identifier and append. A
        failed validation leaves storage and the product untouched. */
    method Create(product: Product) returns (created: Product, err: Option<Error>)
      modifies storage
      ensures var v := Validate(old(storage.products), product);
        if v.Some? then
          err == v && created == product && storage.products == old(storage.products)
        else
          err == None && created == product.(id := |old(storage.products)| + 1) &&
          storage.products == old(storage.products) + [created]
    {
      err := Validations(product);
      if err.Some? {
        return product, err;
      }
      created, err := storage.Create(product);
    }

    /** Validates, excluding the product's own identifier from the code
        check, then replaces by identifier; storage's ProductNotFound is
        returned as it is. */
    method Update(product: Product) returns (err: Option<Error>)
      modifies storage
      ensures var v := Validate(old(storage.products), product);
        var j := FirstIndex(old(storage.products), product.id);
        if v.Some? then err == v && storage.products == old(storage.products)
        else if j.Some? then err == None && storage.products == old(storage.products)[j.value := product]
        else err == Some(ProductNotFound) && storage.products == old(storage.products)
    {
      err := Validations(product);
      if err.Some? {
        return;
      }
      err := storage.Update(product);
    }

    /** Rejects an empty name before storage is touched; otherwise renames
        and passes storage's answer on, the zero product included. */
    method UpdateName(id: int, name: string) returns (product: Product, err: Option<Error>)
      modifies storage
      ensures product == ZeroProduct
      ensures var j := FirstIndex(old(storage.products), id);
        if name == "" then err == Some(InvalidData) && storage.products == old(storage.products)
        else if j.Some? then
          err == None &&
          storage.products == old(storage.products)[j.value := old(storage.products)[j.value].(name := name)]
        else err == Some(ProductNotFound) && storage.products == old(storage.products)
    {
      if name == "" {
        return ZeroProduct, Some(InvalidData);
      }
      var renamed, e := storage.UpdateName(id, name);
      if e.Some? {
        return ZeroProduct, e;
      }
      return renamed, e;
    }

    /** Every stored product in storage order; never fails here. */
    method GetAll() returns (all: seq<Product>, err: Option<Error>)
      ensures all == storage.products && err == None
    {
      var products, e := storage.GetAll();
      all := if e.None? then products else [];
      err := e;
    }

    /** The first product with identifier `id`; any storage failure is
        reported as ProductNotFound with the zero product. */
    method FindById(id: int) returns (product: Product, err: Option<Error>)
      ensures var j := FirstIndex(storage.products, id);
        if j.Some? then product == storage.products[j.value] && err == None
        else product == ZeroProduct && err == Some(ProductNotFound)
    {
      var found, e := storage.FindById(id);
      err := AsNotFound(e);
      product := if e.None? then found else ZeroProduct;
    }

    /** A threshold that is not positive is InvalidData with an empty
        answer; otherwise the products priced above it, in storage order. */
    method Search(priceGt: real) returns (products: seq<Product>, err: Option<Error>)
      ensures priceGt <= 0.0 ==> products == [] && err == Some(InvalidData)
      ensures priceGt > 0.0 ==> products == PricedAbove(storage.products, priceGt) && err == None
    {
      if priceGt <= 0.0 {
        return [], Some(InvalidData);
      }
      var found, e := storage.Search(priceGt);
      err := AsInternal(e);
      products := if e.None? then found else [];
    }

    /** Deletes the last product with identifier `id`; any storage failure
        is reported as ProductNotFound. */
    method Delete(id: int) returns (err: Option<Error>)
      modifies storage
      ensures var j := LastIndex(old(storage.products), id);
        if j.Some? then err == None && storage.products == Removed(old(storage.products), j.value)
        else err == Some(ProductNotFound) && storage.products == old(storage.products)
    {
      var e := storage.Delete(id);
      err := AsNotFound(e);
    }

    /** The published products for the requested ids and their total: the
        sum of their prices times the markup for their count, at most one
        of the three multiplications applying. */
    method ConsumerPrice(list: seq<int>) returns (consumer: ProductsConsumer, err: Option<Error>)
      ensures consumer.products == PublishedForIds(storage.products, list)
      ensures consumer.totalPrice == Sum(consumer.products) * Markup(|consumer.products|)
      ensures err == None
    {
      var filtered, e := storage.ConsumerPrice(list);
      err := AsInternal(e);
      var total := 0.0;
      for i := 0 to |filtered|
        invariant total == Sum(filtered[..i])
      {
        assert filtered[..i + 1][..i] == filtered[..i];
        total := total + filtered[i].price;
      }
      assert filtered[..|filtered|] == filtered;
      if |filtered| < 10 {
        total := total * (121.0 / 100.0);
      }
      if |filtered| > 10 && |filtered| < 20 {
        total := total * (117.0 / 100.0);
      }
      if |filtered| > 20 {
        total := total * (115.0 / 100.0);
      }
      consumer := if e.None? then ProductsConsumer(filtered, total) else ProductsConsumer([], 0.0);
    }
  }

  /** A product whose code is used only by the stored product with its own
      identifier passes the uniqueness check, as an Update of an unchanged
      code does. */
  lemma OwnCodePasses(s: seq<Product>, product: Product)
    requires forall i :: 0 <= i < |s| && s[i].codeValue == product.codeValue ==> s[i].id == product.id
    ensures Validate(s, product) != Some(ProductAlreadyExists)
    ensures ValidExpiration(product.expiration) ==> Validate(s, product) == None
  {
  }

  /** A Create that passes validation keeps codes unique, provided the
      caller's identifier is not a stored one (the check excludes that
      identifier, while storage assigns a new one). */
  lemma CreateKeepsCodesUnique(s: seq<Product>, product: Product)
    requires UniqueCodes(s)
    requires Validate(s, product) == None
    requires forall i :: 0 <= i < |s| ==> s[i].id != product.id
    ensures UniqueCodes(s + [product.(id := |s| + 1)])
  {
  }

  /** An Update that passes validation and finds its product keeps codes
      unique. */
  lemma UpdateKeepsCodesUnique(s: seq<Product>, product: Product)
    requires UniqueCodes(s)
    requires Validate(s, product) == None
    requires FirstIndex(s, product.id).Some?
    ensures UniqueCodes(s[FirstIndex(s, product.id).value := product])
  {
  }

  /** Each tier's factor belongs to exactly one range of counts, so the
      tiers never overlap, and the counts 10 and 20 fall in none of them. */
  lemma MarkupTiers(count: nat)
    ensures Markup(count) == 121.0 / 100.0 <==> count < 10
    ensures Markup(count) == 117.0 / 100.0 <==> 10 < count < 20
    ensures Markup(count) == 115.0 / 100.0 <==> count > 20
    ensures Markup(count) == 1.0 <==> count == 10 || count == 20
  {
  }

  /** With no negative price, the total is not negative. */
  lemma {:induction false} SumNonNegative(s: seq<Product>)
    requires forall i :: 0 <= i < |s| ==> s[i].price >= 0.0
    ensures Sum(s) >= 0.0
  {
    if s != [] {
      SumNonNegative(s[..|s| - 1]);
    }
  }

  /** The sum over a concatenation is the sum of the parts. */
  lemma {:induction false} SumAppend(a: seq<Product>, b: seq<Product>)
    ensures Sum(a + b) == Sum(a) + Sum(b)
  {
    if b != [] {
      assert (a + b)[..|a + b| - 1] == a + b[..|b| - 1];
      SumAppend(a, b[..|b| - 1]);
    } else {
      assert a + b == a;
    }
  }

  /** The date layout accepts day/month/year and rejects ISO order. */
  /** One decimal digit as a character. */
  function DigitChar(d: nat): (c: char)
    requires d < 10
    ensures IsDigit(c) && DigitValue(c) == d
  {
    ('0' as int + d) as char
  }

  /** A date written in the layout "02/01/2006", zero-padded. */
  function DateText(day: nat, month: nat, year: nat): (s: string)
    requires day < 100 && month < 100 && year < 10000
    ensures |s| == 10
  {
    [DigitChar(day / 10), DigitChar(day % 10), '/',
     DigitChar(month / 10), DigitChar(month % 10), '/',
     DigitChar(year / 1000), DigitChar(year / 100 % 10), DigitChar(year / 10 % 10), DigitChar(year % 10)]
  }

  /** A zero-padded day/month/year text parses exactly when it names a
      real calendar day. */
  lemma DateTextParses(day: nat, month: nat, year: nat)
    requires day < 100 && month < 100 && year < 10000
    ensures ValidExpiration(DateText(day, month, year)) <==> 1 <= month <= 12 && 1 <= day <= DaysIn(month, year)
  {
    var s := DateText(day, month, year);
    TwoDigits(day);
    TwoDigits(month);
    FourDigits(year);
    assert 10 * DigitValue(s[0]) + DigitValue(s[1]) == day;
    assert 10 * DigitValue(s[3]) + DigitValue(s[4]) == month;
    assert 1000 * DigitValue(s[6]) + 100 * DigitValue(s[7]) + 10 * DigitValue(s[8]) + DigitValue(s[9]) == year;
  }

  lemma TwoDigits(n: nat)
    requires n < 100
    ensures n / 10 < 10 && 10 * (n / 10) + n % 10 == n
  {
  }

  lemma FourDigits(n: nat)
    requires n < 10000
    ensures n / 1000 < 10 && 1000 * (n / 1000) + 100 * (n / 100 % 10) + 10 * (n / 10 % 10) + n % 10 == n
  {
  }

  lemma ExpirationExamples()
    ensures ValidExpiration("28/01/2022")
    ensures !ValidExpiration("2022-01-28")
    ensures ValidExpiration("29/02/2024") && !ValidExpiration("29/02/2023")
  {
  }
}
