/** `HandleCarListRead`: the cards of a search result page, two pages of them.
    `clean` stands for the extension `ClearUnwantedCharacters`, whose body is not
    part of this model; nothing is assumed about it. */
module CarListRead {
  import opened Wrappers
  import opened Text
  import opened Numbers
  import opened Browser
  import opened Dto

  // ---------------------------------------------------------------------------
  // One field of one card

  /** The accessor at the end of a card query: `getAttribute("name")` when an
      attribute is asked for and named, `textContent` otherwise. */
  function Accessor(isAttribute: bool, attributeName: Option<string>): string {
    if isAttribute && attributeName.Some? then "getAttribute(\"" + attributeName.value + "\")" else "textContent"
  }

  /** The selector of the card `div` whose id is `carId`. */
  function CardDiv(carId: string): string {
    "div[id=\"" + carId + "\"]"
  }

  /** The query that reads, inside the card `div` with id `carId`, the first element `selector` picks. */
  function CardQuery(carId: string, selector: string): string {
    "document.querySelector('" + CardDiv(carId) + "').querySelector('" + selector + "')."
  }

  /** The expression `GetCarListDetailBySelector` builds: the query, then the accessor. */
  function CardExpression(carId: string, selector: string, isAttribute: bool, attributeName: Option<string>): string {
    CardQuery(carId, selector) + Accessor(isAttribute, attributeName)
  }

  /** The script `GetCarListDetailBySelector` evaluates: the expression, wrapped in a function that returns it. */
  function CardScript(carId: string, selector: string, isAttribute: bool, attributeName: Option<string>): string {
    "(function() { return " + CardExpression(carId, selector, isAttribute, attributeName) + "; })();"
  }

  /** The script looks inside the card with the given id, asks for the given
      selector there, and reads the named attribute exactly when one is asked for
      and named, and the text content otherwise. */
  lemma CardScriptTargets(carId: string, selector: string, isAttribute: bool, attributeName: Option<string>)
    ensures var s := CardScript(carId, selector, isAttribute, attributeName);
      && Contains(s, CardDiv(carId))
      && Contains(s, selector)
      && (isAttribute && attributeName.Some? ==> Contains(s, "getAttribute(\"" + attributeName.value + "\")"))
      && (!(isAttribute && attributeName.Some?) ==> Contains(s, "textContent"))
    ensures Accessor(isAttribute, attributeName) == "textContent" <==> !(isAttribute && attributeName.Some?)
  {
    var open := "(function() { return ";
    var close := "; })();";
    var acc := Accessor(isAttribute, attributeName);
    var q := CardQuery(carId, selector);
    var d := CardDiv(carId);
    var l1 := "document.querySelector('";
    var l2 := "').querySelector('";
    var l3 := "').";
    var e := CardExpression(carId, selector, isAttribute, attributeName);
    // the card id, inside the query, inside the script
    ContainsMiddle(l1, d, l2);
    ContainsBeforeSuffix(l1 + d + l2, selector, d);
    ContainsBeforeSuffix(l1 + d + l2 + selector, l3, d);
    ContainsBeforeSuffix(q, acc, d);
    ContainsAfterPrefix(open, e, d);
    ContainsBeforeSuffix(open + e, close, d);
    // the selector
    ContainsMiddle(l1 + d + l2, selector, l3);
    ContainsBeforeSuffix(q, acc, selector);
    ContainsAfterPrefix(open, e, selector);
    ContainsBeforeSuffix(open + e, close, selector);
    // the accessor
    ContainsMiddle(q, acc, "");
    assert q + acc + "" == e;
    ContainsAfterPrefix(open, e, acc);
    ContainsBeforeSuffix(open + e, close, acc);
    if isAttribute && attributeName.Some? {
      assert acc[0] == 'g';
    }
  }

  /** `GetCarListDetailBySelector` on the page `p`: the cleaned text of a
      successful, non-null answer, and `string.Empty` (never null) otherwise. */
  function CardField(p: Page, clean: string -> string, carId: string, selector: string,
                     isAttribute: bool, attributeName: Option<string>): (r: string)
    ensures var t := TextOf(Evaluate(p, CardScript(carId, selector, isAttribute, attributeName)));
      && (t.None? ==> r == "")
      && (t.Some? ==> r == clean(t.value))
  {
    match TextOf(Evaluate(p, CardScript(carId, selector, isAttribute, attributeName)))
    case None => ""
    case Some(t) => clean(t)
  }

  /** A card field read as text content. */
  function CardText(p: Page, clean: string -> string, carId: string, selector: string): string {
    CardField(p, clean, carId, selector, false, None)
  }

  const FilmstripSelector: string := "cars-filmstrip"
  const RatingSelector: string := "span[class=\"sds-rating__count\"]"
  const DealerNameSelector: string := "div[class=\"dealer-name\"]"
  const SellerNameSelector: string := "div[class=\"seller-name\"]"
  const BadgeSelector: string := "[class=\"sds-badge__label\"]"
  const LinkSelector: string := "a[href]"
  const StockTypeSelector: string := "p[class=\"stock-type\"]"
  const TitleSelector: string := "h2[class=\"title\"]"
  const MileageSelector: string := "div[class=\"mileage\"]"
  const PriceSelector: string := "span[class=\"primary-price\"]"

  /** What a card shows when its deal badge is blank. */
  const NoDeal: string := "No Deal"

  // ---------------------------------------------------------------------------
  // One card

  /** The record `ParseCarDataFromString` builds for the card `carId` on the page `p`. */
  function CarOf(p: Page, clean: string -> string, siteUri: string, carId: string): (car: CarMinimized)
    ensures car.id == carId
    ensures car.isSponsored <==> Contains(carId, "sponsored")
    ensures var image := CardField(p, clean, carId, FilmstripSelector, true, Some("totalcount"));
      && ShortMin <= car.imageCount <= ShortMax
      && (ParseShort(image).None? ==> car.imageCount == 0)
      && (ParseShort(image).Some? ==> car.imageCount == ParseShort(image).value)
    ensures var rating := ParseDecimal(CardText(p, clean, carId, RatingSelector));
      && (rating.None? ==> car.dealer.rating == 0.0)
      && (rating.Some? ==> car.dealer.rating == rating.value)
    ensures var dealer := CardText(p, clean, carId, DealerNameSelector);
      car.dealer.name == if IsBlank(dealer) then CardText(p, clean, carId, SellerNameSelector) else dealer
    ensures !IsBlank(car.dealBadge)
    ensures var badge := CardText(p, clean, carId, BadgeSelector);
      car.dealBadge == if IsBlank(badge) then NoDeal else badge
    ensures car.uri == siteUri + CardField(p, clean, carId, LinkSelector, true, Some("href"))
    ensures car.title == CardText(p, clean, carId, TitleSelector)
    ensures car.price == CardText(p, clean, carId, PriceSelector)
    ensures car.mileage == CardText(p, clean, carId, MileageSelector)
    ensures car.stockType == CardText(p, clean, carId, StockTypeSelector)
  {
    var imageCount := ParseShort(CardField(p, clean, carId, FilmstripSelector, true, Some("totalcount"))).GetOr(0);
    var dealerRating := ParseDecimal(CardText(p, clean, carId, RatingSelector)).GetOr(0.0);
    var dealer := CardText(p, clean, carId, DealerNameSelector);
    var dealerName := if IsBlank(dealer) then CardText(p, clean, carId, SellerNameSelector) else dealer;
    var badge := CardText(p, clean, carId, BadgeSelector);
    var dealBadge := if IsBlank(badge) then NoDeal else badge;
    assert !IsBlank(NoDeal) by { assert !IsWhiteSpace(NoDeal[0]); }
    CarMinimized(
      id := carId,
      uri := siteUri + CardField(p, clean, carId, LinkSelector, true, Some("href")),
      title := CardText(p, clean, carId, TitleSelector),
      price := CardText(p, clean, carId, PriceSelector),
      dealBadge := dealBadge,
      imageCount := imageCount,
      mileage := CardText(p, clean, carId, MileageSelector),
      stockType := CardText(p, clean, carId, StockTypeSelector),
      isSponsored := Contains(carId, "sponsored"),
      dealer := Dealer(dealerName, dealerRating))
  }

  /** A card whose link cannot be read points at the site itself. */
  lemma UnreadableLinkGivesSiteUri(p: Page, clean: string -> string, siteUri: string, carId: string)
    requires TextOf(Evaluate(p, CardScript(carId, LinkSelector, true, Some("href")))).None?
    ensures CarOf(p, clean, siteUri, carId).uri == siteUri
  {
    assert siteUri + "" == siteUri;
  }

  // ---------------------------------------------------------------------------
  // One page

  const CarIdsScript: string :=
    "(function() { return Array.from(document.querySelectorAll('[data-tracking-type=\"srp-vehicle-card\"]')).map(x=>x.id) })();"

  const SecondPageScript: string := "document.querySelector('[id=\"pagination-direct-link-2\"]').click()"

  /** The id query either fails, answers null or answers a list: `Result as
      List<object>` is iterated, and anything else would throw there. */
  predicate IdsReadable(p: Page) {
    var r := Evaluate(p, CarIdsScript);
    r.success && r.result != JsNull ==> r.result.JsArray?
  }

  /** The card ids the page lists, in order; none when the query fails. */
  function CardIds(p: Page): (ids: seq<string>)
    requires IdsReadable(p)
    ensures var r := Evaluate(p, CarIdsScript);
      && (!r.success || r.result == JsNull ==> ids == [])
      && (r.success && r.result != JsNull ==>
            |ids| == |r.result.items| && forall k :: 0 <= k < |ids| ==> ids[k] == ConvertToString(r.result.items[k]))
  {
    var r := Evaluate(p, CarIdsScript);
    if r.success && r.result != JsNull then
      seq(|r.result.items|, k requires 0 <= k < |r.result.items| => ConvertToString(r.result.items[k]))
    else []
  }

  /** `ParseCarDataFromString` on the page `p`, as a function of the card id. */
  function CardReader(p: Page, clean: string -> string, siteUri: string): string -> CarMinimized {
    carId => CarOf(p, clean, siteUri, carId)
  }

  /** The records `read` gives for the cards `ids`, in order. */
  function CarsOf(read: string -> CarMinimized, ids: seq<string>): seq<CarMinimized>
    decreases |ids|
  {
    if ids == [] then [] else CarsOf(read, ids[..|ids| - 1]) + [read(ids[|ids| - 1])]
  }

  /** One record per id, in id order. */
  lemma {:induction false} CarsOfEach(read: string -> CarMinimized, ids: seq<string>)
    ensures |CarsOf(read, ids)| == |ids|
    ensures forall k :: 0 <= k < |ids| ==> CarsOf(read, ids)[k] == read(ids[k])
    decreases |ids|
  {
    if ids != [] {
      CarsOfEach(read, ids[..|ids| - 1]);
    }
  }

  /** Reading one more card appends its record. */
  lemma CarsOfSnoc(read: string -> CarMinimized, ids: seq<string>, i: nat, car: CarMinimized)
    requires i < |ids| && car == read(ids[i])
    ensures CarsOf(read, ids[..i + 1]) == CarsOf(read, ids[..i]) + [car]
  {
    assert ids[..i + 1][..i] == ids[..i];
  }

  /** What `GetCurrentPagesCarResult` returns for the page `p`. */
  function PageCars(p: Page, clean: string -> string, siteUri: string): seq<CarMinimized>
    requires IdsReadable(p)
  {
    CarsOf(CardReader(p, clean, siteUri), CardIds(p))
  }

  /** A page yields one record per card id, in id order, each read from the card
      with that id; none when the id query fails. */
  lemma PageCarsPerId(p: Page, clean: string -> string, siteUri: string)
    requires IdsReadable(p)
    ensures var cars := PageCars(p, clean, siteUri);
      && |cars| == |CardIds(p)|
      && (forall k :: 0 <= k < |cars| ==> cars[k] == CarOf(p, clean, siteUri, CardIds(p)[k]))
  {
    CarsOfEach(CardReader(p, clean, siteUri), CardIds(p));
  }

  /** The state of the scraper's page reading, with the static `_siteUri`:
      `None` until `SetSiteUri` is called, as the static field is null until then. */
  class CarListReader {
    var siteUri: Option<string>

    constructor ()
      ensures siteUri == None
    {
      siteUri := None;
    }

    /** `SetSiteUri`: from now on the cards' links are read relative to `siteUri`. */
    method SetSiteUri(siteUri: string)
      modifies this
      ensures this.siteUri == Some(siteUri)
    {
      this.siteUri := Some(siteUri);
    }

    /** `GetCarListDetailBySelector`: the script is built piece by piece. */
    method GetCarListDetailBySelector(browser: Browser, clean: string -> string, carId: string, selector: string,
                                      isAttribute: bool, attributeName: Option<string>) returns (r: string)
      ensures r == CardField(browser.Current(), clean, carId, selector, isAttribute, attributeName)
    {
      var script := CardQuery(carId, selector);
      if isAttribute && attributeName.Some? {
        script := script + ("getAttribute(\"" + attributeName.value + "\")");
      } else {
        script := script + "textContent";
      }
      var carListDetailRequest := browser.Query("(function() { return " + script + "; })();");
      if carListDetailRequest.success && carListDetailRequest.result != JsNull {
        r := clean(ConvertToString(carListDetailRequest.result));
      } else {
        r := "";
      }
    }

    /** `ParseCarDataFromString`: the dealer name and the badge are read and then
        replaced by their defaults when blank. The link is prefixed with the site
        address, which dereferences `_siteUri`: it must have been set. */
    method ParseCarDataFromString(browser: Browser, clean: string -> string, carId: string) returns (car: CarMinimized)
      requires siteUri.Some?
      ensures car == CarOf(browser.Current(), clean, siteUri.value, carId)
    {
      var image := GetCarListDetailBySelector(browser, clean, carId, FilmstripSelector, true, Some("totalcount"));
      var imageCount := ParseShort(image).GetOr(0);
      var rating := GetCarListDetailBySelector(browser, clean, carId, RatingSelector, false, None);
      var dealerRating := ParseDecimal(rating).GetOr(0.0);
      var dealerName := GetCarListDetailBySelector(browser, clean, carId, DealerNameSelector, false, None);
      if IsBlank(dealerName) {
        dealerName := GetCarListDetailBySelector(browser, clean, carId, SellerNameSelector, false, None);
      }
      var dealBadge := GetCarListDetailBySelector(browser, clean, carId, BadgeSelector, false, None);
      if IsBlank(dealBadge) {
        dealBadge := NoDeal;
      }
      var href := GetCarListDetailBySelector(browser, clean, carId, LinkSelector, true, Some("href"));
      var stockType := GetCarListDetailBySelector(browser, clean, carId, StockTypeSelector, false, None);
      var title := GetCarListDetailBySelector(browser, clean, carId, TitleSelector, false, None);
      var mileage := GetCarListDetailBySelector(browser, clean, carId, MileageSelector, false, None);
      var price := GetCarListDetailBySelector(browser, clean, carId, PriceSelector, false, None);
      car := CarMinimized(
        id := carId,
        uri := siteUri.value + href,
        title := title,
        price := price,
        dealBadge := dealBadge,
        imageCount := imageCount,
        mileage := mileage,
        stockType := stockType,
        isSponsored := Contains(carId, "sponsored"),
        dealer := Dealer(dealerName, dealerRating));
    }

    /** `GetCurrentPagesCarResult`: the card ids, then one record per id. Only a
        page with cards reads `_siteUri`, so only such a page needs it set. */
    method GetCurrentPagesCarResult(browser: Browser, clean: string -> string) returns (result: seq<CarMinimized>)
      requires IdsReadable(browser.Current())
      requires siteUri.Some? || CardIds(browser.Current()) == []
      ensures result == PageCars(browser.Current(), clean, siteUri.GetOr(""))
    {
      result := [];
      var allCars := browser.Query(CarIdsScript);
      if allCars.success && allCars.result != JsNull {
        var items := allCars.result.items;
        ghost var ids := CardIds(browser.Current());
        ghost var read := CardReader(browser.Current(), clean, siteUri.GetOr(""));
        var i := 0;
        while i < |items|
          invariant 0 <= i <= |items| == |ids|
          invariant result == CarsOf(read, ids[..i])
        {
          var singleCarId := ConvertToString(items[i]);
          var car := ParseCarDataFromString(browser, clean, singleCarId);
          CarsOfSnoc(read, ids, i, car);
          result := result + [car];
          i := i + 1;
        }
        assert ids[..|items|] == ids;
      }
    }

    /** `GetCarsResult`: the first page's records, then a click on the second page
        and a one-second pause, then the second page's records, all appended in
        place to the list the list had. */
    method GetCarsResult(browser: Browser, clean: string -> string, aboutCars: CarGroup)
      requires IdsReadable(browser.Current())
      requires IdsReadable(browser.world(browser.trail + [Eval(SecondPageScript), Pause(1000)]))
      requires siteUri.Some? ||
        (CardIds(browser.Current()) == [] && CardIds(browser.world(browser.trail + [Eval(SecondPageScript), Pause(1000)])) == [])
      modifies browser, aboutCars
      ensures browser.trail == old(browser.trail) + [Eval(SecondPageScript), Pause(1000)]
      ensures aboutCars.carList ==
        old(aboutCars.carList)
        + PageCars(browser.world(old(browser.trail)), clean, siteUri.GetOr(""))
        + PageCars(browser.Current(), clean, siteUri.GetOr(""))
      ensures aboutCars.carDetail == old(aboutCars.carDetail)
      ensures aboutCars.notableHighlights == old(aboutCars.notableHighlights)
    {
      ghost var before := aboutCars.carList;
      var firstPage := GetCurrentPagesCarResult(browser, clean);
      aboutCars.carList := aboutCars.carList + firstPage;
      var goToSecondPage := browser.Run(SecondPageScript);
      browser.Sleep(1000);
      assert browser.trail == old(browser.trail) + [Eval(SecondPageScript), Pause(1000)];
      var secondPage := GetCurrentPagesCarResult(browser, clean);
      aboutCars.carList := aboutCars.carList + secondPage;
      assert aboutCars.carList == before + firstPage + secondPage;
    }
  }

  /** The two-page list keeps what it had, and grows by one record per card of each page. */
  lemma TwoPageLength(before: seq<CarMinimized>, p1: Page, p2: Page, clean: string -> string, siteUri: string)
    requires IdsReadable(p1) && IdsReadable(p2)
    ensures var l := before + PageCars(p1, clean, siteUri) + PageCars(p2, clean, siteUri);
      && |l| == |before| + |CardIds(p1)| + |CardIds(p2)|
      && l[..|before|] == before
  {
    PageCarsPerId(p1, clean, siteUri);
    PageCarsPerId(p2, clean, siteUri);
    var l := before + PageCars(p1, clean, siteUri) + PageCars(p2, clean, siteUri);
    assert l[..|before|] == before;
  }
}
