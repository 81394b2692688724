/** `HandleNotableHighlightRead`: open the home-delivery modal of the shown car
    and read its three highlights; when the badge or the modal is missing, go to a
    car picked at random from the list and try again. The fallback has no bound
    in the source; here at most `fuel` cars are tried after the first page. */
module NotableHighlight {
  import opened Wrappers
  import opened Browser
  import opened Dto
  import opened Randomness
  import opened PickRandomCar

  // ---------------------------------------------------------------------------
  // Scripts

  const ClickScript: string := "document.querySelector('[class=\"sds-badge sds-badge--home-delivery\"]').click()"

  /** The query of the modal's body. */
  const ModalBody: string :=
    "document.querySelector('[class=\"sds-modal sds-modal-visible\"]').querySelector('[class=\"sds-modal__content-body\"]')"

  const ModalScript: string := "(function() { return " + ModalBody + ".textContent; })();"

  /** The script reading the description of the badge `selector` inside the modal. */
  function PartScript(selector: string): string {
    "(function() { return " + ModalBody + ".querySelector('[class=\"" + selector + "\"]')"
    + ".getElementsByClassName(\"badge-description\")[0].textContent; })();"
  }

  const DealSelector: string := "price-badge"
  const HomeDeliverySelector: string := "home_delivery-badge"
  const VirtualAppointmentsSelector: string := "virtual_appointments-badge"

  // ---------------------------------------------------------------------------
  // Reading the highlights

  /** `GetPartOfNotableHighlightDatas` on the page `p`: the cleaned text of a
      successful, non-null answer, and null otherwise. */
  function Part(p: Page, clean: string -> string, selector: string): (r: Option<string>)
    ensures var t := TextOf(Evaluate(p, PartScript(selector)));
      && (t.None? ==> r.None?)
      && (t.Some? ==> r == Some(clean(t.value)))
  {
    match TextOf(Evaluate(p, PartScript(selector)))
    case None => None
    case Some(t) => Some(clean(t))
  }

  /** The record `ParseNotableHighlightData` assigns: each field read on its own,
      null exactly when its own query fails, and its cleaned text otherwise. */
  function Highlights(p: Page, clean: string -> string): (h: NotableHighlights)
    ensures var t := TextOf(Evaluate(p, PartScript(DealSelector)));
      && (h.deal.None? <==> t.None?)
      && (t.Some? ==> h.deal == Some(clean(t.value)))
    ensures var t := TextOf(Evaluate(p, PartScript(HomeDeliverySelector)));
      && (h.homeDelivery.None? <==> t.None?)
      && (t.Some? ==> h.homeDelivery == Some(clean(t.value)))
    ensures var t := TextOf(Evaluate(p, PartScript(VirtualAppointmentsSelector)));
      && (h.virtualAppointments.None? <==> t.None?)
      && (t.Some? ==> h.virtualAppointments == Some(clean(t.value)))
  {
    NotableHighlights(
      deal := Part(p, clean, DealSelector),
      homeDelivery := Part(p, clean, HomeDeliverySelector),
      virtualAppointments := Part(p, clean, VirtualAppointmentsSelector))
  }

  // ---------------------------------------------------------------------------
  // The fallback loop

  /** One attempt on the page shown after `trail` succeeds when the badge click
      succeeds and then the modal's body reads as a non-null value. */
  predicate Opens(world: seq<Action> -> Page, trail: seq<Action>) {
    && Evaluate(world(trail), ClickScript).success
    && TextOf(Evaluate(world(trail + [Eval(ClickScript)]), ModalScript)).Some?
  }

  /** How the loop ends: `found` after the last click opened the modal; the actions
      sent and the draws used. */
  datatype HighlightOutcome = HighlightOutcome(found: bool, trail: seq<Action>, drawn: nat)

  /** `GetNotableHighlights` with `CheckAnotherPageForHomeDelivery`, from the page
      shown after `trail`: click, and when that does not open the modal, load a car
      drawn from `cars` and start again. It stops without success when the fuel is
      spent or when the list is empty (where picking a car throws). */
  function HighlightFrom(world: seq<Action> -> Page, trail: seq<Action>, cars: seq<CarMinimized>,
                         sample: nat -> nat, drawn: nat, fuel: nat): (r: HighlightOutcome)
    ensures drawn <= r.drawn <= drawn + fuel
    decreases fuel
  {
    var clicked := trail + [Eval(ClickScript)];
    if Opens(world, trail) then HighlightOutcome(true, clicked, drawn)
    else if fuel == 0 || |cars| == 0 then HighlightOutcome(false, clicked, drawn)
    else
      var car := PickedCar(cars, sample(drawn));
      HighlightFrom(world, clicked + [Load(car.uri)], cars, sample, drawn + 1, fuel - 1)
  }

  /** The loop keeps what was sent before it and ends with a click; it has found
      the highlights exactly when that last click opened the modal. */
  lemma {:induction false} HighlightEndsWithClick(world: seq<Action> -> Page, trail: seq<Action>,
                                                 cars: seq<CarMinimized>, sample: nat -> nat, drawn: nat, fuel: nat)
    ensures var r := HighlightFrom(world, trail, cars, sample, drawn, fuel);
      && |r.trail| > |trail|
      && r.trail[..|trail|] == trail
      && r.trail[|r.trail| - 1] == Eval(ClickScript)
      && (r.found <==> Opens(world, r.trail[..|r.trail| - 1]))
    decreases fuel
  {
    var clicked := trail + [Eval(ClickScript)];
    if !Opens(world, trail) && fuel > 0 && |cars| > 0 {
      var car := PickedCar(cars, sample(drawn));
      var next := clicked + [Load(car.uri)];
      HighlightEndsWithClick(world, next, cars, sample, drawn + 1, fuel - 1);
      var r := HighlightFrom(world, next, cars, sample, drawn + 1, fuel - 1);
      assert r.trail[..|trail|] == r.trail[..|next|][..|trail|];
    } else {
      assert clicked[..|trail|] == trail;
      assert clicked[..|clicked| - 1] == trail;
    }
  }

  /** One fallback of the loop, as its body sees it. */
  lemma HighlightFallback(world: seq<Action> -> Page, trail: seq<Action>, cars: seq<CarMinimized>,
                          sample: nat -> nat, drawn: nat, fuel: nat, car: CarMinimized)
    requires !Opens(world, trail) && fuel > 0 && |cars| > 0
    requires car == PickedCar(cars, sample(drawn))
    ensures HighlightFrom(world, trail, cars, sample, drawn, fuel)
         == HighlightFrom(world, trail + [Eval(ClickScript)] + [Load(car.uri)], cars, sample, drawn + 1, fuel - 1)
  {
  }

  /** Where the loop stops: the last click opened the modal, or nothing is left to try. */
  lemma HighlightStops(world: seq<Action> -> Page, trail: seq<Action>, cars: seq<CarMinimized>,
                       sample: nat -> nat, drawn: nat, fuel: nat)
    requires Opens(world, trail) || fuel == 0 || |cars| == 0
    ensures HighlightFrom(world, trail, cars, sample, drawn, fuel)
         == HighlightOutcome(Opens(world, trail), trail + [Eval(ClickScript)], drawn)
  {
  }

  /** When the first click opens the modal, no other car is visited and no draw is used. */
  lemma FirstPageSuffices(world: seq<Action> -> Page, trail: seq<Action>, cars: seq<CarMinimized>,
                          sample: nat -> nat, drawn: nat, fuel: nat)
    requires Opens(world, trail)
    ensures HighlightFrom(world, trail, cars, sample, drawn, fuel)
            == HighlightOutcome(true, trail + [Eval(ClickScript)], drawn)
  {
  }

  /** Every page the loop navigates to is the page of a car of the list. */
  lemma {:induction false} LoadsStayInList(world: seq<Action> -> Page, trail: seq<Action>, cars: seq<CarMinimized>,
                                          sample: nat -> nat, drawn: nat, fuel: nat)
    ensures var r := HighlightFrom(world, trail, cars, sample, drawn, fuel);
      forall k :: |trail| <= k < |r.trail| && r.trail[k].Load? ==>
        exists car :: car in cars && r.trail[k] == Load(car.uri)
    decreases fuel
  {
    var clicked := trail + [Eval(ClickScript)];
    if !Opens(world, trail) && fuel > 0 && |cars| > 0 {
      var car := PickedCar(cars, sample(drawn));
      var next := clicked + [Load(car.uri)];
      LoadsStayInList(world, next, cars, sample, drawn + 1, fuel - 1);
      HighlightEndsWithClick(world, next, cars, sample, drawn + 1, fuel - 1);
      var r := HighlightFrom(world, next, cars, sample, drawn + 1, fuel - 1);
      forall k | |trail| <= k < |r.trail| && r.trail[k].Load?
        ensures exists c :: c in cars && r.trail[k] == Load(c.uri)
      {
        if k < |next| {
          assert r.trail[k] == next[k];
          assert k == |trail| + 1;
          assert r.trail[k] == Load(car.uri);
        }
      }
    }
  }

  /** The loop stops at the first click that opens the modal: every earlier click
      it sent was one that did not open it. */
  lemma {:induction false} HighlightStopsAtFirst(world: seq<Action> -> Page, trail: seq<Action>,
                                                cars: seq<CarMinimized>, sample: nat -> nat, drawn: nat, fuel: nat)
    ensures var r := HighlightFrom(world, trail, cars, sample, drawn, fuel);
      forall k :: |trail| <= k < |r.trail| - 1 && r.trail[k] == Eval(ClickScript) ==> !Opens(world, r.trail[..k])
    decreases fuel
  {
    var clicked := trail + [Eval(ClickScript)];
    if !Opens(world, trail) && fuel > 0 && |cars| > 0 {
      var car := PickedCar(cars, sample(drawn));
      var next := clicked + [Load(car.uri)];
      HighlightStopsAtFirst(world, next, cars, sample, drawn + 1, fuel - 1);
      HighlightEndsWithClick(world, next, cars, sample, drawn + 1, fuel - 1);
      var r := HighlightFrom(world, next, cars, sample, drawn + 1, fuel - 1);
      forall k | |trail| <= k < |r.trail| - 1 && r.trail[k] == Eval(ClickScript)
        ensures !Opens(world, r.trail[..k])
      {
        if k < |next| {
          assert r.trail[k] == next[k];
          assert k == |trail|;
          assert r.trail[..k] == r.trail[..|next|][..k] == trail;
        }
      }
    }
  }

  /** The loop gives up only when the list is empty or every fallback has been used. */
  lemma {:induction false} GivesUpOnlyWhenSpent(world: seq<Action> -> Page, trail: seq<Action>,
                                               cars: seq<CarMinimized>, sample: nat -> nat, drawn: nat, fuel: nat)
    ensures var r := HighlightFrom(world, trail, cars, sample, drawn, fuel);
      !r.found ==> |cars| == 0 || r.drawn == drawn + fuel
    decreases fuel
  {
    if !Opens(world, trail) && fuel > 0 && |cars| > 0 {
      var car := PickedCar(cars, sample(drawn));
      GivesUpOnlyWhenSpent(world, trail + [Eval(ClickScript)] + [Load(car.uri)], cars, sample, drawn + 1, fuel - 1);
    }
  }

  /** Cars can be visited again: with a single car in the list, every fallback
      loads that same car. */
  lemma {:induction false} SingleCarRevisited(world: seq<Action> -> Page, trail: seq<Action>, car: CarMinimized,
                                             sample: nat -> nat, drawn: nat, fuel: nat)
    ensures var r := HighlightFrom(world, trail, [car], sample, drawn, fuel);
      forall k :: |trail| <= k < |r.trail| && r.trail[k].Load? ==> r.trail[k] == Load(car.uri)
  {
    LoadsStayInList(world, trail, [car], sample, drawn, fuel);
  }

  // ---------------------------------------------------------------------------
  // The handler

  /** The first part of `GetNotableHighlights`: the badge click, and the modal read
      when the click succeeded. */
  method OpenHomeDelivery(browser: Browser) returns (modalOpen: bool)
    modifies browser
    ensures browser.trail == old(browser.trail) + [Eval(ClickScript)]
    ensures modalOpen == Opens(browser.world, old(browser.trail))
  {
    var findHomeDeliveryButton := browser.Run(ClickScript);
    modalOpen := false;
    if findHomeDeliveryButton.success {
      var getNotableHighlightModalDatas := browser.Query(ModalScript);
      modalOpen := getNotableHighlightModalDatas.success && getNotableHighlightModalDatas.result != JsNull;
    }
  }

  /** `GetPartOfNotableHighlightDatas`. */
  method GetPartOfNotableHighlightDatas(browser: Browser, clean: string -> string, selector: string)
    returns (r: Option<string>)
    ensures r == Part(browser.Current(), clean, selector)
  {
    var notableHighlightData := browser.Query(PartScript(selector));
    if notableHighlightData.success && notableHighlightData.result != JsNull {
      r := Some(clean(ConvertToString(notableHighlightData.result)));
    } else {
      r := None;
    }
  }

  /** `ParseNotableHighlightData`: the three parts, assigned together. */
  method ParseNotableHighlightData(browser: Browser, clean: string -> string, aboutCars: CarGroup)
    modifies aboutCars
    ensures aboutCars.notableHighlights == Highlights(browser.Current(), clean)
    ensures aboutCars.carList == old(aboutCars.carList) && aboutCars.carDetail == old(aboutCars.carDetail)
  {
    var deal := GetPartOfNotableHighlightDatas(browser, clean, DealSelector);
    var homeDelivery := GetPartOfNotableHighlightDatas(browser, clean, HomeDeliverySelector);
    var virtualAppointments := GetPartOfNotableHighlightDatas(browser, clean, VirtualAppointmentsSelector);
    aboutCars.notableHighlights := NotableHighlights(deal, homeDelivery, virtualAppointments);
  }

  /** The loop of `GetNotableHighlights`: attempts until one opens the modal, each
      fallback loading a car drawn from `carList`, the group's list, which the loop
      does not change. */
  method Attempts(browser: Browser, carList: seq<CarMinimized>, picker: CarPicker, fuel: nat)
    returns (modalOpen: bool)
    modifies browser, picker.rnd
    ensures var r := HighlightFrom(browser.world, old(browser.trail), carList, picker.rnd.sample, old(picker.rnd.drawn), fuel);
      modalOpen == r.found && browser.trail == r.trail && picker.rnd.drawn == r.drawn
  {
    ghost var world, sample := browser.world, picker.rnd.sample;
    ghost var goal := HighlightFrom(world, browser.trail, carList, sample, picker.rnd.drawn, fuel);
    ghost var start := browser.trail;
    var fallbacks := 0;
    modalOpen := OpenHomeDelivery(browser);
    while !modalOpen && fallbacks < fuel && |carList| > 0
      invariant fallbacks <= fuel
      invariant browser.trail == start + [Eval(ClickScript)]
      invariant modalOpen == Opens(world, start)
      invariant goal == HighlightFrom(world, start, carList, sample, picker.rnd.drawn, fuel - fallbacks)
      decreases fuel - fallbacks
    {
      ghost var t, d := start, picker.rnd.drawn;
      var selectedCar := picker.PickRandomCar(carList);
      HighlightFallback(world, t, carList, sample, d, fuel - fallbacks, selectedCar);
      browser.LoadUrl(selectedCar.uri);
      start := browser.trail;
      fallbacks := fallbacks + 1;
      modalOpen := OpenHomeDelivery(browser);
    }
    HighlightStops(world, start, carList, sample, picker.rnd.drawn, fuel - fallbacks);
  }

  /** `GetNotableHighlights`: the attempts over the group's own list; only the
      highlights of the group are assigned, and only on success; its list and
      detail stay as they were. */
  method GetNotableHighlights(browser: Browser, clean: string -> string, aboutCars: CarGroup,
                              picker: CarPicker, fuel: nat) returns (found: bool)
    modifies browser, aboutCars, picker.rnd
    ensures var r := HighlightFrom(browser.world, old(browser.trail), old(aboutCars.carList),
                                   picker.rnd.sample, old(picker.rnd.drawn), fuel);
      && found == r.found
      && browser.trail == r.trail
      && picker.rnd.drawn == r.drawn
    ensures found ==> aboutCars.notableHighlights == Highlights(browser.Current(), clean)
    ensures !found ==> aboutCars.notableHighlights == old(aboutCars.notableHighlights)
    ensures aboutCars.carList == old(aboutCars.carList) && aboutCars.carDetail == old(aboutCars.carDetail)
  {
    found := Attempts(browser, aboutCars.carList, picker, fuel);
    if found {
      ParseNotableHighlightData(browser, clean, aboutCars);
    }
  }
}
