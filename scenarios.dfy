/**
 * The outcomes the integration tests expect. Those that do not depend on the
 * service hold for every provider; the others hold for every provider that
 * answers as the integration tests expect.
 */
module Scenarios {
  import opened JsText
  import opened Lookup
  import opened Batch

  /** A city and state are sent with ", US" appended. */
  lemma MadisonSent()
    ensures Classify("Madison, WI") == Send(ByName("Madison, WI, US"))
  {
    assert "Madison, WI" + ", US" == "Madison, WI, US";
    assert Count("Madison, WI", ',') == 1;
  }

  /** Five digits are sent as a zip code. */
  lemma ZipSent()
    ensures Classify("78744") == Send(ByZip("78744"))
  {
    assert IsFiveDigits("78744");
  }

  /** Thirteen digits are a format error, not a zip code. */
  lemma LongDigitsRefused()
    ensures Classify("5656575478493") == Refuse("5656575478493" + FORMAT_ERROR_SUFFIX)
  {
    assert Count("5656575478493", ',') == 0;
  }

  /** The empty string, and the empty list, both yield the no-input message alone. */
  lemma EmptyInputs(provider: Request -> Reply)
    ensures Resolve([""], provider) == [Message(NO_INPUT_MESSAGE)]
    ensures Resolve([], provider) == [Message(NO_INPUT_MESSAGE)]
  {
    var xs: seq<string> := [""];
    assert xs[..0] == [];
    assert Distinct(xs) == xs;
    assert Classify("") == Refuse(NO_INPUT_MESSAGE);
    assert Collect(xs, Resolver(provider)) == [Message(NO_INPUT_MESSAGE)];
  }

  /** Repeated strings are kept once, in the order they first appear. */
  lemma DuplicatesCollapse()
    ensures Distinct(["Chicago, IL", "78744", "Chicago, IL", "78744"]) == ["Chicago, IL", "78744"]
  {
    var xs := ["Chicago, IL", "78744", "Chicago, IL", "78744"];
    assert xs[..2] == ["Chicago, IL", "78744"];
    assert xs[..2][..1] == ["Chicago, IL"];
    assert xs[..3][..2] == xs[..2];
  }

  /** A one-string list whose resolution is fulfilled yields that one outcome. */
  lemma ResolveOne(query: string, provider: Request -> Reply, outcome: Outcome)
    requires GetGeolocation(query, provider) == Fulfilled(outcome)
    ensures Resolve([query], provider) == [outcome]
  {
    var xs := [query];
    assert xs[..0] == [];
    assert Distinct(xs) == xs;
  }

  /** A place the service does not find is reported with the provider's 404 body. */
  lemma CityNotFound(query: string, provider: Request -> Reply, error: string)
    requires Count(query, ',') == 1
    requires provider(ByName(query + ", US")) == Failure(ClientError(error, Body(ErrorBody("404", "city not found"))))
    ensures Resolve([query], provider) == [Message("API Error: 404: city not found")]
  {
    var text := "API Error: 404: city not found";
    assert "API Error: " + "404" + ": " + "city not found" == text;
    assert Classify(query) == Send(ByName(query + ", US"));
    assert Catch(ClientError(error, Body(ErrorBody("404", "city not found")))) == Fulfilled(Message(text));
    ResolveOne(query, provider, Message(text));
  }

  /** A place found outside the US gives the country message, not a record. */
  lemma ForeignPlace(query: string, provider: Request -> Reply, statusText: string, data: WeatherData)
    requires Count(query, ',') == 1
    requires data.sys.country == "TR"
    requires provider(ByName(query + ", US")) == Response(200, statusText, data)
    ensures Resolve([query], provider) == [Message(query + ": TR" + NOT_US_SUFFIX)]
  {
    var text := query + ": TR" + NOT_US_SUFFIX;
    assert query + ": " + "TR" + NOT_US_SUFFIX == text;
    assert Classify(query) == Send(ByName(query + ", US"));
    assert FromWeatherData(query, data) == Fulfilled(Message(text));
    ResolveOne(query, provider, Message(text));
  }
}
