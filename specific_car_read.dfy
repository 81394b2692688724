/** `HandleSpecificCarRead`: the details of one car, read from its page. Every
    read here is a script that only looks at the page, so all of them see the page
    the browser shows when the reading starts. */
module SpecificCarRead {
  import opened Wrappers
  import opened Text
  import opened Numbers
  import opened Browser
  import opened Dto
  import opened DefinitionList
  import opened Randomness
  import opened PickRandomCar

  // ---------------------------------------------------------------------------
  // Scripts

  const ImageCountScript: string :=
    "(function() { return document.querySelector('vdp-gallery').getAttribute(\"media-count\"); })();"

  /** The script of `GetCarDetailDataFromSelector`: the `textContent` of the first
      element that `selector` picks. */
  function FieldScript(selector: string): string {
    "(function() { return document.querySelector('" + selector + "').textContent; })();"
  }

  /** The inner markup of the first `<dl>` of the section of class `section`. */
  function SectionScript(section: string): string {
    "(function() { return document.querySelector('section." + section
      + "').getElementsByTagName(\"dl\")[0].innerHTML; })();"
  }

  const BasicsScript: string := SectionScript("basics-section")
  const FeaturesScript: string := SectionScript("features-section")
  const HistoryScript: string := SectionScript("vehicle-history-section")

  /** The query of `ExtractCarFeatureAdditionalData`, as it stands, with its
      doubled `document`. */
  const AdditionalFeaturesScript: string :=
    UndefinedGlobalReturn + "getElementsByClassName('auto-corrected-feature-list')[0].textContent; })();"

  // ---------------------------------------------------------------------------
  // Sections

  /** The `<dt>` labels of the basics section, in the order of the fields of `CarBasicsDto`. */
  const BasicsLabels: seq<string> :=
    ["Exterior color", "Interior color", "Drivetrain", "Fuel type", "Transmission",
     "Engine", "VIN", "Stock #", "Mileage"]

  function BasicsFields(b: CarBasics): seq<Option<string>> {
    [b.exteriorColor, b.interiorColor, b.driveTrain, b.fuelType, b.transmission,
     b.engine, b.vin, b.stock, b.mileage]
  }

  /** The `<dt>` labels of the features section, in the order of the fields of `CarFeaturesDto`. */
  const FeatureLabels: seq<string> := ["Convenience", "Entertainment", "Exterior", "Safety", "Seating"]

  function FeatureFields(f: CarFeatures): seq<Option<seq<string>>> {
    [f.convenience, f.entertainment, f.exterior, f.safety, f.seating]
  }

  /** The `<dt>` labels of the history section, in the order of the fields of `CarHistoryDto`. */
  const HistoryLabels: seq<string> := ["Accidents or damage", "1-owner vehicle", "Personal use only"]

  function HistoryFields(h: CarHistory): seq<Option<string>> {
    [h.accidentsOrDamage, h.firstOwnerVehicle, h.personelUseOnly]
  }

  /** The value each label introduces in `body`: the basics/history extractor
      label by label, never null. */
  function LabelValues(body: string, labels: seq<string>): (vs: seq<Option<string>>)
    ensures |vs| == |labels|
    ensures forall k :: 0 <= k < |labels| ==> vs[k] == Some(ExtractValue(body, labels[k]))
  {
    seq(|labels|, k requires 0 <= k < |labels| => Some(ExtractValue(body, labels[k])))
  }

  lemma BasicsOfFields(v: seq<Option<string>>)
    requires |v| == 9
    ensures BasicsFields(CarBasics(v[0], v[1], v[2], v[3], v[4], v[5], v[6], v[7], v[8])) == v
  {
  }

  /** `GetCarBasicsData`: every field null when the markup cannot be fetched;
      otherwise every field set, to the value its label introduces. */
  function Basics(p: Page): (b: CarBasics)
    ensures TextOf(Evaluate(p, BasicsScript)).None? ==> b == NoBasics
    ensures TextOf(Evaluate(p, BasicsScript)).Some? ==>
      BasicsFields(b) == LabelValues(TextOf(Evaluate(p, BasicsScript)).value, BasicsLabels)
  {
    match TextOf(Evaluate(p, BasicsScript))
    case None => NoBasics
    case Some(body) =>
      var v := LabelValues(body, BasicsLabels);
      BasicsOfFields(v);
      CarBasics(v[0], v[1], v[2], v[3], v[4], v[5], v[6], v[7], v[8])
  }

  lemma HistoryOfFields(v: seq<Option<string>>)
    requires |v| == 3
    ensures HistoryFields(CarHistory(v[0], v[1], v[2])) == v
  {
  }

  /** `GetCarHistoryData`, built like the basics. */
  function History(p: Page): (h: CarHistory)
    ensures TextOf(Evaluate(p, HistoryScript)).None? ==> h == NoHistory
    ensures TextOf(Evaluate(p, HistoryScript)).Some? ==>
      HistoryFields(h) == LabelValues(TextOf(Evaluate(p, HistoryScript)).value, HistoryLabels)
  {
    match TextOf(Evaluate(p, HistoryScript))
    case None => NoHistory
    case Some(body) =>
      var v := LabelValues(body, HistoryLabels);
      HistoryOfFields(v);
      CarHistory(v[0], v[1], v[2])
  }

  /** `ExtractCarFeatureAdditionalData` for the answer `r`: the pieces of its text
      between commas, untrimmed, or an empty list when the query fails. */
  function AdditionalFeatures(r: Response): (items: seq<string>)
    ensures TextOf(r).None? ==> items == []
    ensures TextOf(r).Some? ==>
      && |items| >= 1 && Join(items, ',') == TextOf(r).value
      && forall k :: 0 <= k < |items| ==> ',' !in items[k]
  {
    match TextOf(r)
    case None => []
    case Some(t) =>
      JoinSplit(t, ',');
      Split(t, ',')
  }

  /** The list each label introduces in `body`, or null where the shape is absent. */
  function LabelLists(body: string, labels: seq<string>): (ls: seq<Option<seq<string>>>)
    ensures |ls| == |labels|
    ensures forall k :: 0 <= k < |labels| ==> ls[k] == ExtractFeature(body, labels[k])
  {
    seq(|labels|, k requires 0 <= k < |labels| => ExtractFeature(body, labels[k]))
  }

  lemma FeaturesOfFields(l: seq<Option<seq<string>>>, additional: Option<seq<string>>)
    requires |l| == 5
    ensures FeatureFields(CarFeatures(l[0], l[1], l[2], l[3], l[4], additional)) == l
  {
  }

  /** `GetCarFeaturesData`: every field null when the markup cannot be fetched;
      otherwise each list as its label's extractor gives it, and the additional
      features never null. */
  function Features(p: Page): (f: CarFeatures)
    ensures TextOf(Evaluate(p, FeaturesScript)).None? ==> f == NoFeatures
    ensures TextOf(Evaluate(p, FeaturesScript)).Some? ==>
      && FeatureFields(f) == LabelLists(TextOf(Evaluate(p, FeaturesScript)).value, FeatureLabels)
      && f.additionalPopularFeatures == Some(AdditionalFeatures(Evaluate(p, AdditionalFeaturesScript)))
  {
    match TextOf(Evaluate(p, FeaturesScript))
    case None => NoFeatures
    case Some(body) =>
      var l := LabelLists(body, FeatureLabels);
      FeaturesOfFields(l, Some(AdditionalFeatures(Evaluate(p, AdditionalFeaturesScript))));
      CarFeatures(l[0], l[1], l[2], l[3], l[4], Some(AdditionalFeatures(Evaluate(p, AdditionalFeaturesScript))))
  }

  /** The additional-features query returns a member of the undefined global
      `documentdocument`, so it fails on every page and the list is always empty. */
  lemma AdditionalFeaturesAlwaysEmpty(p: Page)
    ensures TextOf(Evaluate(p, FeaturesScript)).Some? ==> Features(p).additionalPopularFeatures == Some([])
  {
    var rest := "getElementsByClassName('auto-corrected-feature-list')[0].textContent; })();";
    assert AdditionalFeaturesScript[..|UndefinedGlobalReturn|] == (UndefinedGlobalReturn + rest)[..|UndefinedGlobalReturn|];
    UndefinedGlobalAlwaysFails(p, AdditionalFeaturesScript);
  }

  // ---------------------------------------------------------------------------
  // The whole record

  /** `short.TryParse` of the gallery's `media-count`, with 0 when the attribute
      cannot be read or does not parse. */
  function ImageCount(p: Page): (n: int)
    ensures ShortMin <= n <= ShortMax
    ensures TextOf(Evaluate(p, ImageCountScript)).None? ==> n == 0
    ensures TextOf(Evaluate(p, ImageCountScript)).Some? && ParseShort(TextOf(Evaluate(p, ImageCountScript)).value).None? ==> n == 0
    ensures TextOf(Evaluate(p, ImageCountScript)).Some? && ParseShort(TextOf(Evaluate(p, ImageCountScript)).value).Some? ==>
      n == ParseShort(TextOf(Evaluate(p, ImageCountScript)).value).value
  {
    match TextOf(Evaluate(p, ImageCountScript))
    case None => 0
    case Some(t) => ParseShort(t).GetOr(0)
  }

  /** A gallery that states a 16-bit count gets that count back. */
  lemma ImageCountReadsAttribute(p: Page, n: int)
    requires ShortMin <= n <= ShortMax
    requires Evaluate(p, ImageCountScript) == Response(true, JsString(IntToString(n)))
    ensures ImageCount(p) == n
  {
    ParseShortOfToString(n);
  }

  /** The selectors of the simple text fields, in the order `DetailTexts` lists them. */
  const DetailSelectors: seq<string> :=
    ["[class=\"primary-price\"]", "[class=\"dealer-phone\"]", "[class=\"new-used\"]",
     "[class=\"listing-title\"]", "[class=\"js-estimated-monthly-payment-formatted-value-with-abr\"]",
     "[class=\"sds-badge__label\"]", "[class=\"listing-mileage\"]"]

  function DetailTexts(d: CarDetailed): seq<Option<string>> {
    [d.price, d.sellerContactPhone, d.stockType, d.title, d.estimatedMonthlyPayment, d.dealBadge, d.mileage]
  }

  /** `GetCarDetailDataFromSelector` on the page `p`: null exactly when the query
      fails or answers null, and the raw (uncleaned) `textContent` otherwise. */
  function DetailField(p: Page, selector: string): (r: Option<string>)
    ensures var q := Evaluate(p, FieldScript(selector));
      && (r.None? <==> !q.success || q.result == JsNull)
      && (q.success && q.result.JsString? ==> r == Some(q.result.text))
  {
    TextOf(Evaluate(p, FieldScript(selector)))
  }

  /** The simple text fields, each read with its own selector. */
  function DetailFields(p: Page, selectors: seq<string>): (ts: seq<Option<string>>)
    ensures |ts| == |selectors|
    ensures forall k :: 0 <= k < |selectors| ==> ts[k] == DetailField(p, selectors[k])
  {
    seq(|selectors|, k requires 0 <= k < |selectors| => DetailField(p, selectors[k]))
  }

  /** The record `GatherDetailedCarData` builds from the image count, the seven
      text fields (in the order of `DetailSelectors`), the address and the sections. */
  function DetailRecord(imageCount: int, ts: seq<Option<string>>, address: string,
                        basics: CarBasics, features: CarFeatures, history: CarHistory): (d: CarDetailed)
    requires |ts| == 7
    ensures DetailTexts(d) == ts
  {
    CarDetailed(
      uri := Some(address),
      title := ts[3],
      price := ts[0],
      dealBadge := ts[5],
      imageCount := Some(imageCount),
      mileage := ts[6],
      stockType := ts[2],
      estimatedMonthlyPayment := ts[4],
      sellerContactPhone := ts[1],
      carBasics := Some(basics),
      carFeatures := Some(features),
      carHistory := Some(history))
  }

  /** The `CarDetail` that `GatherDetailedCarData` builds on the page `p`: the
      address, the image count and the three sections are never null, and each
      text field is what its own selector reads. */
  function DetailOf(p: Page): (d: CarDetailed)
    ensures d.uri == Some(p.address) && d.imageCount == Some(ImageCount(p))
    ensures d.carBasics == Some(Basics(p)) && d.carFeatures == Some(Features(p)) && d.carHistory == Some(History(p))
    ensures DetailTexts(d) == DetailFields(p, DetailSelectors)
  {
    DetailRecord(ImageCount(p), DetailFields(p, DetailSelectors), p.address, Basics(p), Features(p), History(p))
  }

  /** The gallery's image count, as `GatherDetailedCarData` reads it first. */
  method ReadImageCount(browser: Browser) returns (imageCount: int)
    ensures imageCount == ImageCount(browser.Current())
  {
    imageCount := 0;
    var getImageCount := browser.Query(ImageCountScript);
    if getImageCount.success && getImageCount.result != JsNull {
      imageCount := ParseShort(ConvertToString(getImageCount.result)).GetOr(0);
    }
  }

  /** `GatherDetailedCarData`: reads the shown page and assigns `CarDetail`, and
      nothing else. */
  method GatherDetailedCarData(browser: Browser, aboutCars: CarGroup)
    modifies aboutCars
    ensures aboutCars.carDetail == DetailOf(old(browser.Current()))
    ensures aboutCars.carList == old(aboutCars.carList)
    ensures aboutCars.notableHighlights == old(aboutCars.notableHighlights)
  {
    var imageCount := ReadImageCount(browser);
    var page := browser.Current();
    var texts := DetailFields(page, DetailSelectors);
    aboutCars.carDetail := DetailRecord(imageCount, texts, browser.Address(), Basics(page), Features(page), History(page));
  }

  /** `GatherRandomCarData`: picks a car of the group's list, opens its page and
      reads it. */
  method GatherRandomCarData(browser: Browser, aboutCars: CarGroup, picker: CarPicker)
    requires |aboutCars.carList| > 0
    modifies browser, aboutCars, picker.rnd
    ensures var car := PickedCar(old(aboutCars.carList), picker.rnd.sample(old(picker.rnd.drawn)));
      browser.trail == old(browser.trail) + [Load(car.uri)]
    ensures picker.rnd.drawn == old(picker.rnd.drawn) + 1
    ensures aboutCars.carDetail == DetailOf(browser.Current())
    ensures aboutCars.carList == old(aboutCars.carList)
    ensures aboutCars.notableHighlights == old(aboutCars.notableHighlights)
  {
    var selectedCar := picker.PickRandomCar(aboutCars.carList);
    browser.LoadUrl(selectedCar.uri);
    GatherDetailedCarData(browser, aboutCars);
  }
}
