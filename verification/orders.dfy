/** Orders: the validation and construction of a booking by `POST /order`.

    The handler checks the request in three stages and reports the first
    one that fails: the shape of the body, then the name, then the phone.
    A request that passes all three becomes an order document whose total
    is the client's total when that is truthy and otherwise the sum of the
    booked lessons' prices.
 */
module Orders {
  import opened Results
  import opened JsText
  import opened Api
  import opened Lessons

  /** The `lessons` field of an order request: absent (or null), present but
      not an array, or an array of lessons. */
  datatype LessonsField = Missing | NotAnArray | Items(items: seq<Lesson>)

  /** The fields of a `POST /order` body the handler reads. */
  datatype OrderRequest = OrderRequest(
    name: Option<string>,
    phone: Option<string>,
    lessons: LessonsField,
    totalPrice: Option<int>
  )

  /** The order document stored for an accepted request. `orderDate` is the
      time of creation, supplied by the caller. */
  datatype Order = Order(
    name: string,
    phone: string,
    lessons: seq<Lesson>,
    totalPrice: int,
    orderDate: int,
    status: string
  )

  /** Every new order is pending; nothing in the server moves it on. */
  const PendingStatus: string := "pending"

  /** A string field that is present and non-empty, i.e. truthy. */
  predicate IsTruthyText(field: Option<string>) {
    field.Some? && |field.value| > 0
  }

  /** The shape check: name and phone truthy, lessons a non-empty array. */
  predicate HasOrderShape(req: OrderRequest) {
    && IsTruthyText(req.name)
    && IsTruthyText(req.phone)
    && req.lessons.Items?
    && |req.lessons.items| > 0
  }

  /** The class of a name character: `[A-Za-z\s]`. */
  predicate IsNameChar(c: char) {
    IsAsciiLetter(c) || IsJsWhitespace(c)
  }

  /** `/^[A-Za-z\s]+$/.test(name)`. */
  predicate NameRegexAccepts(name: string) {
    MatchesPlus(IsNameChar, name)
  }

  /** `/^[0-9]+$/.test(phone)`. */
  predicate PhoneRegexAccepts(phone: string) {
    MatchesPlus(IsAsciiDigit, phone)
  }

  /** `l.price || 0`: a missing (or zero) price counts as 0. */
  function PriceOrZero(l: Lesson): int {
    l.price.GetOr(0)
  }

  /** `lessons.reduce((sum, l) => sum + (l.price || 0), acc)`: a left fold
      from the first lesson to the last. */
  function ReducePrices(acc: int, lessons: seq<Lesson>): int
    decreases |lessons|
  {
    if |lessons| == 0 then acc
    else ReducePrices(acc + PriceOrZero(lessons[0]), lessons[1..])
  }

  /** The sum of the prices of the lessons, missing prices counting as 0:
      the reference the fold is measured against. */
  function SumPrices(lessons: seq<Lesson>): int
    decreases |lessons|
  {
    if |lessons| == 0 then 0
    else SumPrices(lessons[..|lessons| - 1]) + PriceOrZero(lessons[|lessons| - 1])
  }

  /** The sum of a list split in two is the sum of the two parts. */
  lemma {:induction false} SumPricesAppend(a: seq<Lesson>, b: seq<Lesson>)
    ensures SumPrices(a + b) == SumPrices(a) + SumPrices(b)
    decreases |b|
  {
    if |b| == 0 {
      assert a + b == a;
    } else {
      var b' := b[..|b| - 1];
      assert (a + b)[..|a + b| - 1] == a + b';
      assert (a + b)[|a + b| - 1] == b[|b| - 1];
      SumPricesAppend(a, b');
    }
  }

  /** The fold started from `acc` adds the sum of the prices to `acc`. */
  lemma {:induction false} ReduceIsSum(acc: int, lessons: seq<Lesson>)
    ensures ReducePrices(acc, lessons) == acc + SumPrices(lessons)
    decreases |lessons|
  {
    if |lessons| > 0 {
      ReduceIsSum(acc + PriceOrZero(lessons[0]), lessons[1..]);
      SumPricesAppend([lessons[0]], lessons[1..]);
      assert [lessons[0]] + lessons[1..] == lessons;
      assert SumPrices([lessons[0]]) == PriceOrZero(lessons[0]) by {
        assert [lessons[0]][..0] == [];
      }
    }
  }

  /** When no lesson has a negative price the sum is not negative. */
  lemma {:induction false} SumPricesNonNegative(lessons: seq<Lesson>)
    requires forall i :: 0 <= i < |lessons| ==> PriceOrZero(lessons[i]) >= 0
    ensures SumPrices(lessons) >= 0
    decreases |lessons|
  {
    if |lessons| > 0 {
      SumPricesNonNegative(lessons[..|lessons| - 1]);
    }
  }

  /** `totalPrice || lessons.reduce(...)`: the client's total when it is
      truthy (present and non-zero), otherwise the sum of the prices. */
  function OrderTotal(totalPrice: Option<int>, lessons: seq<Lesson>): (total: int)
    ensures totalPrice.Some? && totalPrice.value != 0 ==> total == totalPrice.value
    ensures totalPrice.None? || totalPrice.value == 0 ==> total == SumPrices(lessons)
  {
    if totalPrice.Some? && totalPrice.value != 0 then totalPrice.value
    else
      ReduceIsSum(0, lessons);
      ReducePrices(0, lessons)
  }

  /** An order whose total is computed from non-negative prices has a total
      that is not negative. */
  lemma ComputedTotalNonNegative(totalPrice: Option<int>, lessons: seq<Lesson>)
    requires totalPrice.None? || totalPrice.value == 0
    requires forall i :: 0 <= i < |lessons| ==> PriceOrZero(lessons[i]) >= 0
    ensures OrderTotal(totalPrice, lessons) >= 0
  {
    SumPricesNonNegative(lessons);
  }

  /** `POST /order` up to the database insert: the first failing check's
      error, or the order document to store. The name check accepts exactly
      the non-empty names of ASCII letters and white space, the phone check
      exactly the non-empty strings of ASCII digits. */
  function CreateOrder(req: OrderRequest, orderDate: int): (r: Result<Order, ApiError>)
    ensures !HasOrderShape(req) ==> r == Err(InvalidOrderData)
    ensures HasOrderShape(req) && !AllChars(IsNameChar, req.name.value) ==> r == Err(InvalidName)
    ensures (HasOrderShape(req) && AllChars(IsNameChar, req.name.value)
             && !AllChars(IsAsciiDigit, req.phone.value)) ==> r == Err(InvalidPhone)
    ensures r.Ok? <==> HasOrderShape(req) && AllChars(IsNameChar, req.name.value)
                       && AllChars(IsAsciiDigit, req.phone.value)
    ensures r.Ok? ==>
              && r.value.name == req.name.value
              && r.value.phone == req.phone.value
              && r.value.lessons == req.lessons.items
              && r.value.status == PendingStatus
              && r.value.orderDate == orderDate
              && r.value.totalPrice == OrderTotal(req.totalPrice, req.lessons.items)
  {
    if !HasOrderShape(req) then Err(InvalidOrderData)
    else
      MatchesPlusIff(IsNameChar, req.name.value);
      MatchesPlusIff(IsAsciiDigit, req.phone.value);
      if !NameRegexAccepts(req.name.value) then Err(InvalidName)
      else if !PhoneRegexAccepts(req.phone.value) then Err(InvalidPhone)
      else
        var lessons := req.lessons.items;
        Ok(Order(
          name := req.name.value,
          phone := req.phone.value,
          lessons := lessons,
          totalPrice := OrderTotal(req.totalPrice, lessons),
          orderDate := orderDate,
          status := PendingStatus))
  }

  /** A name with a digit anywhere in it is never accepted. */
  lemma DigitInNameRejected(req: OrderRequest, orderDate: int, i: int)
    requires req.name.Some? && 0 <= i < |req.name.value|
    requires IsAsciiDigit(req.name.value[i])
    ensures CreateOrder(req, orderDate).Err?
  {
    assert !IsNameChar(req.name.value[i]);
  }

  /** A phone with a letter anywhere in it is never accepted. */
  lemma LetterInPhoneRejected(req: OrderRequest, orderDate: int, i: int)
    requires req.phone.Some? && 0 <= i < |req.phone.value|
    requires IsAsciiLetter(req.phone.value[i])
    ensures CreateOrder(req, orderDate).Err?
  {
    assert !IsAsciiDigit(req.phone.value[i]);
  }

  /** The shape check comes first: a request without a usable name, phone
      or lesson list reports the shape error whatever else it contains. */
  lemma ShapeErrorFirst(req: OrderRequest, orderDate: int)
    requires req.name.None? || req.phone.None? || req.lessons.Missing?
             || req.lessons.NotAnArray? || req.lessons == Items([])
    ensures CreateOrder(req, orderDate) == Err(InvalidOrderData)
  {
  }

  /** The name check only looks at characters: any non-empty name made of
      white space alone, such as a single space or a tab and a newline,
      passes it. */
  lemma WhitespaceNameAccepted(req: OrderRequest, orderDate: int)
    requires IsTruthyText(req.name) && AllChars(IsJsWhitespace, req.name.value)
    requires IsTruthyText(req.phone) && AllChars(IsAsciiDigit, req.phone.value)
    requires req.lessons.Items? && |req.lessons.items| > 0
    ensures CreateOrder(req, orderDate).Ok?
  {
    var name := req.name.value;
    assert AllChars(IsNameChar, name) by {
      forall i | 0 <= i < |name| ensures IsNameChar(name[i]) {
        assert IsJsWhitespace(name[i]);
      }
    }
  }
}
