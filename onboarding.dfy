/** Onboarding input checks of main.py: the age range of `age_handler` and the
    city lookup of `city_handler` over the `CITIES` table. */
module Onboarding {
  import opened Types
  import opened Text

  const MinAge: int := 18
  const MaxAge: int := 100

  /** `age_handler`: the age stored for the text typed, or None when `int()`
      fails or the value lies outside 18..100 (the user is asked again). */
  function AgeHandler(text: string): (r: Option<int>)
    ensures r.Some? ==> MinAge <= r.value <= MaxAge && ParseInt(text) == Some(r.value)
    ensures r.None? <==> ParseInt(text).None? || !(MinAge <= ParseInt(text).value <= MaxAge)
  {
    match ParseInt(text)
    case Some(n) => if MinAge <= n <= MaxAge then Some(n) else None
    case None => None
  }

  /** Typing any age in range, in the form `str()` writes it, is accepted as that
      age; any other integer is refused. */
  lemma AgeHandlerDecimal(n: int)
    ensures AgeHandler(IntToString(n)) == if MinAge <= n <= MaxAge then Some(n) else None
  {
    ParseIntToString(n);
  }

  /** One entry of `CITIES`: canonical name, coordinates and tier. */
  datatype CityInfo = CityInfo(name: string, lat: real, lon: real, tier: int)

  /** `CITIES` in the order the dict yields its entries. */
  const Cities: seq<CityInfo> := [
    CityInfo("Bengaluru", 12.9716, 77.5946, 1),
    CityInfo("Mumbai", 19.0760, 72.8777, 1),
    CityInfo("Delhi", 28.7041, 77.1025, 1),
    CityInfo("Hyderabad", 17.3850, 78.4867, 1),
    CityInfo("Chennai", 13.0827, 80.2707, 1),
    CityInfo("Kolkata", 22.5726, 88.3639, 1),
    CityInfo("Pune", 18.5204, 73.8567, 1),
    CityInfo("Ahmedabad", 23.0225, 72.5714, 1),
    CityInfo("Jaipur", 26.9124, 75.7873, 2),
    CityInfo("Chandigarh", 30.7333, 76.7794, 2),
    CityInfo("Indore", 22.7196, 75.8577, 2),
    CityInfo("Bhopal", 23.1815, 79.9864, 2),
    CityInfo("Coimbatore", 11.0066, 76.9485, 2),
    CityInfo("Kochi", 9.9312, 76.2673, 2),
    CityInfo("Trivandrum", 8.5241, 76.9366, 2),
    CityInfo("Trichy", 10.7905, 78.7047, 2),
    CityInfo("Madurai", 9.9252, 78.1198, 2),
    CityInfo("Salem", 11.6643, 78.1460, 2),
    CityInfo("Tirunelveli", 8.7139, 77.7567, 2),
    CityInfo("Visakhapatnam", 17.6869, 83.2185, 2),
    CityInfo("Vijayawada", 16.5062, 80.6480, 2),
    CityInfo("Guntur", 16.3067, 80.4365, 2),
    CityInfo("Nellore", 14.4426, 79.9864, 2),
    CityInfo("Rajahmundry", 16.9891, 81.7744, 2),
    CityInfo("Warangal", 17.9689, 79.5941, 2),
    CityInfo("Nagpur", 21.1458, 79.0882, 2),
    CityInfo("Nashik", 19.9975, 73.7898, 2),
    CityInfo("Aurangabad", 19.8762, 75.3433, 2),
    CityInfo("Kolhapur", 16.7050, 73.7421, 2),
    CityInfo("Udaipur", 24.5854, 73.7125, 2),
    CityInfo("Jodhpur", 26.2389, 73.0243, 2),
    CityInfo("Kota", 25.2138, 75.8648, 2),
    CityInfo("Ajmer", 26.4499, 74.6399, 2),
    CityInfo("Dehradun", 30.1975, 78.1348, 2),
    CityInfo("Haridwar", 29.9457, 78.1642, 2),
    CityInfo("Roorkee", 29.8680, 77.8971, 2),
    CityInfo("Ludhiana", 30.9010, 75.8573, 2),
    CityInfo("Amritsar", 31.6340, 74.8723, 2),
    CityInfo("Jalandhar", 31.7260, 75.5762, 2),
    CityInfo("Patiala", 30.3398, 76.3869, 2),
    CityInfo("Mohali", 30.6394, 76.8216, 2),
    CityInfo("Panipat", 29.3910, 77.2863, 2),
    CityInfo("Karnal", 29.6200, 77.1040, 2),
    CityInfo("Hisar", 29.1724, 75.7339, 2),
    CityInfo("Rohtak", 28.8955, 77.0413, 2),
    CityInfo("Alwar", 27.5330, 75.6245, 2),
    CityInfo("Mysuru", 12.2958, 76.6394, 3),
    CityInfo("Hubballi", 15.3647, 75.1240, 3),
    CityInfo("Belagavi", 15.8497, 74.4977, 3),
    CityInfo("Mangalore", 12.8628, 74.8430, 3),
    CityInfo("Shimla", 31.7724, 77.1025, 3),
    CityInfo("Srinagar", 34.0837, 74.7973, 3),
    CityInfo("Guwahati", 26.1445, 91.7362, 3),
    CityInfo("Ranchi", 23.3441, 85.3096, 3),
    CityInfo("Patna", 25.5941, 85.1376, 3),
    CityInfo("Varanasi", 25.3176, 82.9739, 3),
    CityInfo("Lucknow", 26.8467, 80.9462, 3),
    CityInfo("Kanpur", 26.4499, 80.3319, 3),
    CityInfo("Agra", 27.1767, 78.0081, 3),
    CityInfo("Meerut", 28.9845, 77.7064, 3),
    CityInfo("Noida", 28.5355, 77.3910, 3),
    CityInfo("Ghaziabad", 28.6692, 77.4538, 3)
  ]

  /** The first city whose lowered name is `key`. */
  function FirstCityNamed(cities: seq<CityInfo>, key: string): (r: Option<CityInfo>)
    ensures r.Some? ==> r.value in cities && Lower(r.value.name) == key
    ensures r.None? <==> forall i :: 0 <= i < |cities| ==> Lower(cities[i].name) != key
  {
    if cities == [] then None
    else if Lower(cities[0].name) == key then Some(cities[0])
    else FirstCityNamed(cities[1..], key)
  }

  /** The lookup loop of `city_handler` over a city table (`CITIES` in the bot),
      stopping at the first hit. */
  method LookupCity(cities: seq<CityInfo>, key: string) returns (found: Option<CityInfo>)
    ensures found == FirstCityNamed(cities, key)
  {
    found := None;
    var i := 0;
    while i < |cities|
      invariant 0 <= i <= |cities|
      invariant found.None?
      invariant FirstCityNamed(cities, key) == FirstCityNamed(cities[i..], key)
    {
      if Lower(cities[i].name) == key {
        found := Some(cities[i]);
        break;
      }
      assert cities[i..][1..] == cities[i + 1..];
      i := i + 1;
    }
  }

  /** What `city_handler` makes of the text typed. */
  datatype CityChoice = Skip | Known(city: CityInfo) | Unknown

  /** `city_handler`'s decision: 'skip' in any case clears the location, a known
      name in any case picks that city, anything else is refused. */
  function ChooseCity(cities: seq<CityInfo>, text: string): (r: CityChoice)
    ensures r == Skip <==> Lower(Strip(text)) == "skip"
    ensures r.Known? ==> r.city in cities && Lower(r.city.name) == Lower(Strip(text))
    ensures r == Unknown <==> (Lower(Strip(text)) != "skip"
      && forall i :: 0 <= i < |cities| ==> Lower(cities[i].name) != Lower(Strip(text)))
  {
    var key := Lower(Strip(text));
    if key == "skip" then Skip
    else match FirstCityNamed(cities, key)
      case Some(c) => Known(c)
      case None => Unknown
  }
}
