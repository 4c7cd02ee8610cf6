/** The records the converter works on: the parts of a parsed TransXChange
    document it reads, and the rows of the frames it builds from them. */
module Records {
  import opened Results

  // ---------------------------------------------------------------------------
  // The parsed document. A `daysOf...` field is the list of child element
  // names under an operating profile, or None when some element on the path
  // to it is missing.

  /** A JourneyPatternTimingLink: from and to stop, route link and RunTime token. */
  datatype TimingLink = TimingLink(fromStop: string, toStop: string, routeLinkRef: string, runTime: string)

  /** A JourneyPatternSection with its timing links in document order. */
  datatype PatternSection = PatternSection(id: string, links: seq<TimingLink>)

  datatype VehicleJourney = VehicleJourney(
    serviceRef: string,
    journeyPatternRef: string,
    code: string,                              // VehicleJourneyCode
    departureTime: string,                     // DepartureTime text, "HH:MM:SS"
    daysOfWeek: Option<seq<string>>,           // OperatingProfile/RegularDayType/DaysOfWeek
    daysOfNonOperation: Option<seq<string>>)   // OperatingProfile/BankHolidayOperation/DaysOfNonOperation

  datatype JourneyPattern = JourneyPattern(
    id: string,
    sectionRefs: string,                       // JourneyPatternSectionRefs text
    direction: string,
    routeRef: string,
    vehicleTypeCode: Option<string>,
    vehicleDescription: Option<string>)

  datatype Service = Service(
    description: Option<string>,
    mode: string,
    lineName: string,
    serviceCode: Option<string>,
    operatorRef: string,                       // RegisteredOperatorRef
    startDate: string,                         // OperatingPeriod, "YYYY-MM-DD"
    endDate: string,
    origin: string,                            // StandardService/Origin
    destination: string,                       // StandardService/Destination
    patterns: seq<JourneyPattern>,
    daysOfWeek: Option<seq<string>>,
    daysOfNonOperation: Option<seq<string>>)

  datatype Operator = Operator(id: string, nameOnLicence: string)

  datatype Route = Route(id: string, description: string, privateCode: string, routeSectionRef: string)

  datatype Document = Document(
    services: seq<Service>,
    operators: seq<Operator>,
    routes: seq<Route>,
    sections: seq<PatternSection>,
    journeys: seq<VehicleJourney>)

  // ---------------------------------------------------------------------------
  // Frame rows

  /** A row of the journey-pattern table (one per JourneyPattern of a service). */
  datatype PatternRow = PatternRow(
    journeyPatternId: string,
    serviceCode: string,
    agencyId: string,
    lineName: string,
    travelMode: Option<int>,
    serviceDescription: Option<string>,
    tripHeadsign: string,
    sectionRef: string,
    directionId: int,
    routeId: string,
    vehicleType: Option<string>,
    vehicleDescription: Option<string>,
    startDate: string,                         // "YYYYMMDD"
    endDate: string)

  /** The columns every stop-time row of one trip shares. */
  datatype TripAttrs = TripAttrs(
    agencyId: string,
    routeId: string,
    vehicleJourneyId: string,
    serviceRef: string,
    directionId: int,
    lineName: string,
    travelMode: int,
    tripHeadsign: string,
    vehicleType: Option<string>,
    startDate: string,
    endDate: string,
    weekdays: Option<string>)

  /** A row of the gtfs_info frame: one stop of one trip. */
  datatype InfoRow = InfoRow(
    stopId: string,
    stopSequence: int,
    timepoint: int,
    arrivalTime: string,
    departureTime: string,
    routeLinkRef: string,
    tripId: string,
    trip: TripAttrs,
    nonOperativeDays: Option<string>,
    serviceId: Option<string>)
}
