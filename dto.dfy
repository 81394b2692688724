/** The records the scraper fills in (StockBridge.Dto). `None` stands for a null
    reference; a record that the source only builds in one object initializer is a
    datatype, and the per-filter result holder, whose properties are assigned one
    after the other, is a class. */
module Dto {
  import opened Wrappers

  /** `DealerDto` of CarMinimizedDto.cs: the rating is `decimal?`, a real here. */
  datatype Dealer = Dealer(name: string, rating: real)

  /** `CarMinimizedDto` (with the `CarBaseDto` fields it inherits). Every field is
      assigned a non-null value when a card is read, so none is optional here. */
  datatype CarMinimized = CarMinimized(
    id: string,
    uri: string,
    title: string,
    price: string,
    dealBadge: string,
    imageCount: int,
    mileage: string,
    stockType: string,
    isSponsored: bool,
    dealer: Dealer)

  /** `CarBasicsDto`. */
  datatype CarBasics = CarBasics(
    exteriorColor: Option<string>,
    interiorColor: Option<string>,
    driveTrain: Option<string>,
    fuelType: Option<string>,
    transmission: Option<string>,
    engine: Option<string>,
    vin: Option<string>,
    stock: Option<string>,
    mileage: Option<string>)

  /** `CarFeaturesDto`. */
  datatype CarFeatures = CarFeatures(
    convenience: Option<seq<string>>,
    entertainment: Option<seq<string>>,
    exterior: Option<seq<string>>,
    safety: Option<seq<string>>,
    seating: Option<seq<string>>,
    additionalPopularFeatures: Option<seq<string>>)

  /** `CarHistoryDto`. */
  datatype CarHistory = CarHistory(
    accidentsOrDamage: Option<string>,
    firstOwnerVehicle: Option<string>,
    personelUseOnly: Option<string>)

  /** `CarDetailedDto` (with the `CarBaseDto` fields it inherits; `ImageCount` is `short?`). */
  datatype CarDetailed = CarDetailed(
    uri: Option<string>,
    title: Option<string>,
    price: Option<string>,
    dealBadge: Option<string>,
    imageCount: Option<int>,
    mileage: Option<string>,
    stockType: Option<string>,
    estimatedMonthlyPayment: Option<string>,
    sellerContactPhone: Option<string>,
    carBasics: Option<CarBasics>,
    carFeatures: Option<CarFeatures>,
    carHistory: Option<CarHistory>)

  /** `NotableHighlightsDto`: three independently optional descriptions. */
  datatype NotableHighlights = NotableHighlights(
    deal: Option<string>,
    homeDelivery: Option<string>,
    virtualAppointments: Option<string>)

  /** `new CarBasicsDto()`: every field null. */
  const NoBasics: CarBasics := CarBasics(None, None, None, None, None, None, None, None, None)

  /** `new CarFeaturesDto()`: every field null. */
  const NoFeatures: CarFeatures := CarFeatures(None, None, None, None, None, None)

  /** `new CarHistoryDto()`: every field null. */
  const NoHistory: CarHistory := CarHistory(None, None, None)

  /** `new CarDetailedDto()`: every field null. */
  const NoDetail: CarDetailed :=
    CarDetailed(None, None, None, None, None, None, None, None, None, None, None, None)

  /** `new NotableHighlightsDto()`: every field null. */
  const NoHighlights: NotableHighlights := NotableHighlights(None, None, None)

  /** `CarListAndCarDetailWithNotableHighlights`: what is gathered for one filter setting. */
  class CarGroup {
    var carDetail: CarDetailed
    var carList: seq<CarMinimized>
    var notableHighlights: NotableHighlights

    constructor ()
      ensures carDetail == NoDetail && carList == [] && notableHighlights == NoHighlights
    {
      carDetail := NoDetail;
      carList := [];
      notableHighlights := NoHighlights;
    }
  }

  /** `ResultDto`: one group for every Tesla, one for the Model X only. */
  class ResultDoc {
    var allTesla: CarGroup
    var teslaModelX: CarGroup

    constructor ()
      ensures fresh(allTesla) && fresh(teslaModelX) && allTesla != teslaModelX
      ensures allTesla.carDetail == NoDetail && allTesla.carList == [] && allTesla.notableHighlights == NoHighlights
      ensures teslaModelX.carDetail == NoDetail && teslaModelX.carList == []
      ensures teslaModelX.notableHighlights == NoHighlights
    {
      allTesla := new CarGroup();
      teslaModelX := new CarGroup();
    }
  }
}
