/** The flight mock backend: three flight records and a first-match search by
    flight number, narrowed by date when one is given. */
module Flights {

  datatype Flight = Flight(
    flightNo: string,
    flightDate: string,     // "DD-MMM-YYYY"
    mflId: int,             // master flight id, the key of the meal orders
    registrationNumber: string,
    serviceType: string,
    flightStatus: string)

  /** The search returns either a flight record or a message string. */
  datatype FlightLookup = FoundFlight(flight: Flight) | FlightMessage(message: string)

  const ProvideFlightNoMessage := "Please provide flightNo"
  const NotFoundMessage := "Flight details not found"

  const Flight1 := Flight("EK0202", "21-Jan-2024", 1, "A6-ABC", "J", "FO")
  const Flight2 := Flight("EK0203", "20-Jan-2024", 2, "A6-DEF", "J", "FF")
  const Flight3 := Flight("EK0500", "01-Jun-2025", 4, "A6-GHI", "P", "FO")

  function SeedFlights(): (flights: seq<Flight>)
    ensures |flights| == 3
  {
    [Flight1, Flight2, Flight3]
  }

  /** A record answers the query when its number matches and, if a date was
      given, its date matches too. */
  predicate Answers(f: Flight, flightNo: string, flightDate: string) {
    f.flightNo == flightNo && (flightDate == "" || f.flightDate == flightDate)
  }

  class FlightModule {
    var flightList: seq<Flight>

    constructor ()
      ensures flightList == SeedFlights()
    {
      flightList := [];
      flightList := flightList + [Flight1];
      flightList := flightList + [Flight2];
      flightList := flightList + [Flight3];
    }

    /** The first record of the list that answers the query; a missing flight
        number and a query nothing answers each give their message. */
    method GetFlightDetails(flightNo: string, flightDate: string) returns (r: FlightLookup)
      ensures flightNo == "" ==> r == FlightMessage(ProvideFlightNoMessage)
      ensures flightNo != "" ==>
                (r.FlightMessage? <==> forall i :: 0 <= i < |flightList| ==> !Answers(flightList[i], flightNo, flightDate))
      ensures flightNo != "" && r.FlightMessage? ==> r.message == NotFoundMessage
      ensures r.FoundFlight? ==>
                exists i :: 0 <= i < |flightList| && flightList[i] == r.flight
                  && Answers(flightList[i], flightNo, flightDate)
                  && forall j :: 0 <= j < i ==> !Answers(flightList[j], flightNo, flightDate)
    {
      if flightNo == "" {
        return FlightMessage(ProvideFlightNoMessage);
      }
      for i := 0 to |flightList|
        invariant forall j :: 0 <= j < i ==> !Answers(flightList[j], flightNo, flightDate)
      {
        var flight := flightList[i];
        if flightDate == "" {
          if flight.flightNo == flightNo {
            return FoundFlight(flight);
          }
        } else if flight.flightNo == flightNo && flight.flightDate == flightDate {
          return FoundFlight(flight);
        }
      }
      return FlightMessage(NotFoundMessage);
    }
  }

  /** On the seed data, EK0203 on 20-Jan-2024 is the second record, whose
      master flight id is 2. */
  method LookUpSeededEK0203() returns (r: FlightLookup)
    ensures r == FoundFlight(Flight2) && r.flight.mflId == 2
  {
    var flights := new FlightModule();
    r := flights.GetFlightDetails("EK0203", "20-Jan-2024");
    var list := flights.flightList;
    assert !Answers(list[0], "EK0203", "20-Jan-2024") by {
      assert Flight1.flightNo[5] != "EK0203"[5];
    }
    assert Answers(list[1], "EK0203", "20-Jan-2024");
    var i :| 0 <= i < |list| && list[i] == r.flight && Answers(list[i], "EK0203", "20-Jan-2024")
             && forall j :: 0 <= j < i ==> !Answers(list[j], "EK0203", "20-Jan-2024");
    assert i == 1;
  }
}
