/** The reference tables: subdivisions of the United States and of India, country names, and the
    cities that prove or forbid a country. Names are lower-case. */
module ReferenceData {
  import opened Prelude

  /** The fifty states, the District of Columbia and the five inhabited territories. */
  predicate IsUsCode(code: string) {
    |code| == 2 && code[1] in UsCodeLetters(code[0])
  }

  /** The second letters that follow a first one. */
  function UsCodeLetters(first: char): string {
    match first
    case 'A' => "KLRSZ"
    case 'C' => "AOT"
    case 'D' => "CE"
    case 'F' => "L"
    case 'G' => "AU"
    case 'H' => "I"
    case 'I' => "ADLN"
    case 'K' => "SY"
    case 'L' => "A"
    case 'M' => "ADEINOPST"
    case 'N' => "CDEHJMVY"
    case 'O' => "HKR"
    case 'P' => "AR"
    case 'R' => "I"
    case 'S' => "CD"
    case 'T' => "NX"
    case 'U' => "T"
    case 'V' => "AIT"
    case 'W' => "AIVY"
    case _ => ""
  }

  /** The 28 states and 8 union territories. */
  predicate IsIndiaCode(code: string) {
    |code| == 2 && code[1] in IndiaCodeLetters(code[0])
  }

  /** The second letters that follow a first one. */
  function IndiaCodeLetters(first: char): string {
    match first
    case 'A' => "NPRS"
    case 'B' => "R"
    case 'C' => "HT"
    case 'D' => "HL"
    case 'G' => "AJ"
    case 'H' => "PR"
    case 'J' => "HK"
    case 'K' => "AL"
    case 'L' => "AD"
    case 'M' => "HLNPZ"
    case 'N' => "L"
    case 'O' => "D"
    case 'P' => "BY"
    case 'R' => "J"
    case 'S' => "K"
    case 'T' => "GNR"
    case 'U' => "KP"
    case 'W' => "B"
    case _ => ""
  }

  /** Letters, spaces, full stops and commas. */
  predicate IsStateName(name: string) {
    2 <= |name| <= 30 && forall c :: c in name ==> 'a' <= c <= 'z' || c == ' ' || c == '.' || c == ','
  }

  /** Full state names, the first of them here. */
  function UsStateByName(name: string): (code: Option<string>)
    ensures code.Some? ==> IsUsCode(code.value) && IsStateName(name)
  {
    match name
    case "alabama" => Some("AL")
    case "alaska" => Some("AK")
    case "arizona" => Some("AZ")
    case "arkansas" => Some("AR")
    case "california" => Some("CA")
    case "colorado" => Some("CO")
    case "connecticut" => Some("CT")
    case "delaware" => Some("DE")
    case "district of columbia" => Some("DC")
    case "florida" => Some("FL")
    case "georgia" => Some("GA")
    case _ => UsMiddleName(name)
  }

  /** The next ones. */
  function UsMiddleName(name: string): (code: Option<string>)
    ensures code.Some? ==> IsUsCode(code.value) && IsStateName(name)
  {
    match name
    case "hawaii" => Some("HI")
    case "idaho" => Some("ID")
    case "illinois" => Some("IL")
    case "indiana" => Some("IN")
    case "iowa" => Some("IA")
    case "kansas" => Some("KS")
    case "kentucky" => Some("KY")
    case "louisiana" => Some("LA")
    case "maine" => Some("ME")
    case "maryland" => Some("MD")
    case "massachusetts" => Some("MA")
    case "michigan" => Some("MI")
    case "minnesota" => Some("MN")
    case "mississippi" => Some("MS")
    case "missouri" => Some("MO")
    case "montana" => Some("MT")
    case _ => UsLaterName(name)
  }

  /** The next ones. */
  function UsLaterName(name: string): (code: Option<string>)
    ensures code.Some? ==> IsUsCode(code.value) && IsStateName(name)
  {
    match name
    case "nebraska" => Some("NE")
    case "nevada" => Some("NV")
    case "new hampshire" => Some("NH")
    case "new jersey" => Some("NJ")
    case "new mexico" => Some("NM")
    case "new york" => Some("NY")
    case "north carolina" => Some("NC")
    case "north dakota" => Some("ND")
    case "ohio" => Some("OH")
    case "oklahoma" => Some("OK")
    case "oregon" => Some("OR")
    case _ => UsLastName(name)
  }

  /** The last ones. */
  function UsLastName(name: string): (code: Option<string>)
    ensures code.Some? ==> IsUsCode(code.value) && IsStateName(name)
  {
    match name
    case "pennsylvania" => Some("PA")
    case "rhode island" => Some("RI")
    case "south carolina" => Some("SC")
    case "south dakota" => Some("SD")
    case "tennessee" => Some("TN")
    case "texas" => Some("TX")
    case "utah" => Some("UT")
    case "vermont" => Some("VT")
    case "virginia" => Some("VA")
    case "washington" => Some("WA")
    case "west virginia" => Some("WV")
    case "wisconsin" => Some("WI")
    case "wyoming" => Some("WY")
    case _ => UsOtherName(name)
  }

  /** The territories, and common written variants. */
  function UsOtherName(name: string): (code: Option<string>)
    ensures code.Some? ==> IsUsCode(code.value) && IsStateName(name)
  {
    match name
    case "puerto rico" => Some("PR")
    case "u.s. virgin islands" => Some("VI")
    case "guam" => Some("GU")
    case "american samoa" => Some("AS")
    case "northern mariana islands" => Some("MP")
    case "washington dc" => Some("DC")
    case "washington d.c." => Some("DC")
    case "washington, d.c." => Some("DC")
    case "d.c." => Some("DC")
    case "dc" => Some("DC")
    case "us virgin islands" => Some("VI")
    case "virgin islands" => Some("VI")
    case _ => None
  }

  /** Names, and older or colloquial ones, the first half of the codes here. */
  function IndiaStateByName(name: string): (code: Option<string>)
    ensures code.Some? ==> IsIndiaCode(code.value) && |name| >= 3
  {
    match name
    case "andaman and nicobar islands" => Some("AN")
    case "andhra pradesh" => Some("AP")
    case "arunachal pradesh" => Some("AR")
    case "assam" => Some("AS")
    case "bihar" => Some("BR")
    case "chandigarh" => Some("CH")
    case "chhattisgarh" => Some("CT")
    case "dadra and nagar haveli and daman and diu" => Some("DH")
    case "delhi" => Some("DL")
    case "goa" => Some("GA")
    case "gujarat" => Some("GJ")
    case "himachal pradesh" => Some("HP")
    case "haryana" => Some("HR")
    case "jharkhand" => Some("JH")
    case "jammu and kashmir" => Some("JK")
    case "ncr" => Some("DL")
    case "delhi ncr" => Some("DL")
    case "new delhi" => Some("DL")
    case "national capital region" => Some("DL")
    case "jammu & kashmir" => Some("JK")
    case "andaman & nicobar islands" => Some("AN")
    case _ => IndiaOtherName(name)
  }

  /** The other half. */
  function IndiaOtherName(name: string): (code: Option<string>)
    ensures code.Some? ==> IsIndiaCode(code.value) && |name| >= 3
  {
    match name
    case "karnataka" => Some("KA")
    case "kerala" => Some("KL")
    case "ladakh" => Some("LA")
    case "lakshadweep" => Some("LD")
    case "maharashtra" => Some("MH")
    case "meghalaya" => Some("ML")
    case "manipur" => Some("MN")
    case "madhya pradesh" => Some("MP")
    case "mizoram" => Some("MZ")
    case "nagaland" => Some("NL")
    case "odisha" => Some("OD")
    case "punjab" => Some("PB")
    case "puducherry" => Some("PY")
    case "rajasthan" => Some("RJ")
    case "sikkim" => Some("SK")
    case "telangana" => Some("TG")
    case "tamil nadu" => Some("TN")
    case "tripura" => Some("TR")
    case "uttarakhand" => Some("UK")
    case "uttar pradesh" => Some("UP")
    case "west bengal" => Some("WB")
    case "orissa" => Some("OD")
    case "pondicherry" => Some("PY")
    case "uttaranchal" => Some("UK")
    case "tamilnadu" => Some("TN")
    case "telengana" => Some("TG")
    case "karnatak" => Some("KA")
    case _ => None
  }

  /** Cities whose subdivision is unambiguous. */
  function IndiaStateOfCity(city: string): (code: Option<string>)
    ensures code.Some? ==> IsIndiaCode(code.value)
  {
    match city
    case "bengaluru" => Some("KA")
    case "bangalore" => Some("KA")
    case "mysuru" => Some("KA")
    case "mysore" => Some("KA")
    case "mumbai" => Some("MH")
    case "navi mumbai" => Some("MH")
    case "thane" => Some("MH")
    case "pune" => Some("MH")
    case "nagpur" => Some("MH")
    case "nashik" => Some("MH")
    case "chennai" => Some("TN")
    case "coimbatore" => Some("TN")
    case "madurai" => Some("TN")
    case "hyderabad" => Some("TG")
    case "secunderabad" => Some("TG")
    case "kolkata" => Some("WB")
    case "calcutta" => Some("WB")
    case "gurgaon" => Some("HR")
    case "gurugram" => Some("HR")
    case "faridabad" => Some("HR")
    case "noida" => Some("UP")
    case "greater noida" => Some("UP")
    case "ghaziabad" => Some("UP")
    case "lucknow" => Some("UP")
    case "kanpur" => Some("UP")
    case "ahmedabad" => Some("GJ")
    case "surat" => Some("GJ")
    case "vadodara" => Some("GJ")
    case "gandhinagar" => Some("GJ")
    case "delhi" => Some("DL")
    case "new delhi" => Some("DL")
    case "kochi" => Some("KL")
    case "cochin" => Some("KL")
    case "thiruvananthapuram" => Some("KL")
    case "trivandrum" => Some("KL")
    case "kozhikode" => Some("KL")
    case "jaipur" => Some("RJ")
    case "indore" => Some("MP")
    case "bhopal" => Some("MP")
    case "bhubaneswar" => Some("OD")
    case "chandigarh" => Some("CH")
    case "patna" => Some("BR")
    case "raipur" => Some("CT")
    case "ranchi" => Some("JH")
    case "guwahati" => Some("AS")
    case "dehradun" => Some("UK")
    case "goa" => Some("GA")
    case "panaji" => Some("GA")
    case "visakhapatnam" => Some("AP")
    case "vijayawada" => Some("AP")
    case "amritsar" => Some("PB")
    case "ludhiana" => Some("PB")
    case "mohali" => Some("PB")
    case _ => None
  }

  /** Metro shorthands, with the city and state they stand for. */
  function CityAlias(city: string): (alias: Option<(string, string)>)
    ensures alias.Some? ==> IsUsCode(alias.value.1) && IsMetro(alias.value.0)
  {
    match city
    case "nyc" => Some(("New York", "NY"))
    case "new york city" => Some(("New York", "NY"))
    case "manhattan" => Some(("New York", "NY"))
    case "brooklyn" => Some(("New York", "NY"))
    case "queens" => Some(("New York", "NY"))
    case "the bronx" => Some(("New York", "NY"))
    case "bronx" => Some(("New York", "NY"))
    case "staten island" => Some(("New York", "NY"))
    case "sf" => Some(("San Francisco", "CA"))
    case "san fran" => Some(("San Francisco", "CA"))
    case "bay area" => Some(("San Francisco", "CA"))
    case "sfo" => Some(("San Francisco", "CA"))
    case "la" => Some(("Los Angeles", "CA"))
    case "los angeles" => Some(("Los Angeles", "CA"))
    case "dc" => Some(("Washington", "DC"))
    case "washington dc" => Some(("Washington", "DC"))
    case "washington d.c." => Some(("Washington", "DC"))
    case "philly" => Some(("Philadelphia", "PA"))
    case "chi-town" => Some(("Chicago", "IL"))
    case "atl" => Some(("Atlanta", "GA"))
    case "nola" => Some(("New Orleans", "LA"))
    case "vegas" => Some(("Las Vegas", "NV"))
    case "las vegas" => Some(("Las Vegas", "NV"))
    case _ => None
  }

  /** The cities the shorthands stand for. */
  predicate IsMetro(name: string) {
    name == "New York" || name == "San Francisco" || name == "Los Angeles" || name == "Washington" || name == "Philadelphia" || name == "Chicago" || name == "Atlanta" || name == "New Orleans" || name == "Las Vegas"
  }

  /** Names of the United States. */
  function UsCountryNames(): seq<string> {
    [
      "us", "usa", "u.s.", "u.s.a.", "united states", "united states of america", "the united states",
      "the united states of america", "america", "us remote", "remote - united states", "remote - us",
      "remote (us)", "remote, us", "remote us", "united states (remote)", "usa remote", "anywhere in the us",
      "anywhere in the united states", "nationwide", "us-remote"
    ]
  }

  /** Names of other countries, with their codes. */
  function OtherCountryNames(): seq<(string, string)> {
    [
      ("canada", "CA"), ("ca-canada", "CA"), ("mexico", "MX"), ("méxico", "MX"), ("united kingdom", "GB"),
      ("uk", "GB"), ("great britain", "GB"), ("england", "GB"), ("scotland", "GB"), ("wales", "GB"),
      ("northern ireland", "GB"), ("ireland", "IE"), ("india", "IN"), ("germany", "DE"), ("deutschland", "DE"),
      ("france", "FR"), ("spain", "ES"), ("españa", "ES"), ("italy", "IT"), ("netherlands", "NL"),
      ("australia", "AU"), ("new zealand", "NZ"), ("brazil", "BR"), ("brasil", "BR"), ("china", "CN"),
      ("japan", "JP"), ("singapore", "SG"), ("philippines", "PH"), ("poland", "PL"), ("kenya", "KE"),
      ("south africa", "ZA"), ("argentina", "AR"), ("colombia", "CO"), ("chile", "CL"), ("portugal", "PT"),
      ("sweden", "SE"), ("norway", "NO"), ("denmark", "DK"), ("finland", "FI"), ("belgium", "BE"),
      ("switzerland", "CH"), ("austria", "AT"), ("israel", "IL"), ("united arab emirates", "AE"),
      ("uae", "AE"), ("pakistan", "PK"), ("bangladesh", "BD"), ("indonesia", "ID"), ("vietnam", "VN"),
      ("malaysia", "MY"), ("thailand", "TH"), ("south korea", "KR"), ("korea", "KR"), ("turkey", "TR"),
      ("egypt", "EG"), ("nigeria", "NG"), ("ghana", "GH"), ("romania", "RO"), ("ukraine", "UA"),
      ("czech republic", "CZ"), ("czechia", "CZ"), ("hungary", "HU"), ("greece", "GR")
    ]
  }

  /** Cities that exist in the United States and elsewhere. */
  predicate IsAmbiguousCity(name: string)
    ensures IsAmbiguousCity(name) ==> name != ""
  {
    match name
    case "ottawa" | "richmond hill" | "london" | "hamilton" | "windsor" | "kingston" | "waterloo" | "cambridge"
         | "victoria" | "vancouver" | "richmond" | "surrey" | "guelph" | "barrie" | "aurora" | "newmarket"
         | "oakville" | "milton" | "st. catharines" | "chatham" | "sarnia" | "welland" | "brantford"
         | "peterborough" | "kitchener" | "durango" | "monterrey" | "guadalajara" | "leon" | "toledo"
         | "cordoba" | "santiago" | "birmingham" | "manchester" | "boston" | "bristol" | "newport" | "plymouth"
         | "dublin" | "athens" | "moscow" | "paris" | "melbourne" | "perth" | "hyderabad" | "york"
         | "lancaster" | "lincoln" | "reading" | "oxford" => true
    case _ => false
  }

  /** Major cities with no American counterpart. */
  predicate IsNonUsCity(name: string)
    ensures IsNonUsCity(name) ==> name != ""
  {
    IsCanadianOrMexicanCity(name) || IsBritishIrishOrIndianCity(name) || IsOverseasCity(name) || IsEuropeanCity(name)
  }

  /** Canada and Mexico. */
  predicate IsCanadianOrMexicanCity(name: string)
    ensures IsCanadianOrMexicanCity(name) ==> name != ""
  {
    match name
    case "toronto" | "montreal" | "montréal" | "mississauga" | "brampton" | "scarborough" | "etobicoke"
         | "north york" | "calgary" | "edmonton" | "winnipeg" | "halifax" | "saskatoon" | "regina"
         | "quebec city" | "québec city" | "laval" | "gatineau" | "burnaby" | "coquitlam" | "markham"
         | "vaughan" | "oshawa" | "ajax" | "pickering" | "whitby" | "sherbrooke" | "trois-rivieres"
         | "trois-rivières" | "moncton" | "st. john's" | "saint john" | "thunder bay" | "sudbury" | "kelowna"
         | "abbotsford" | "mexico city" | "ciudad de mexico" | "ciudad de méxico" | "guadalajara" | "monterrey"
         | "tijuana" | "puebla" | "merida" | "mérida" | "cancun" | "cancún" | "queretaro" | "querétaro"
         | "leon guanajuato" => true
    case _ => false
  }

  /** The British Isles and India. */
  predicate IsBritishIrishOrIndianCity(name: string)
    ensures IsBritishIrishOrIndianCity(name) ==> name != ""
  {
    match name
    case "manchester uk" | "liverpool" | "leeds" | "sheffield" | "edinburgh" | "glasgow" | "cardiff"
         | "belfast" | "nottingham" | "leicester" | "coventry" | "bradford" | "dublin ireland" | "cork"
         | "galway" | "bengaluru" | "bangalore" | "mumbai" | "pune" | "chennai" | "hyderabad india" | "kolkata"
         | "gurgaon" | "gurugram" | "noida" | "ahmedabad" => true
    case _ => false
  }

  /** Oceania, East Asia, South America, the Middle East and Africa. */
  predicate IsOverseasCity(name: string)
    ensures IsOverseasCity(name) ==> name != ""
  {
    match name
    case "sydney" | "brisbane" | "adelaide" | "canberra" | "auckland" | "christchurch" | "singapore"
         | "hong kong" | "shanghai" | "beijing" | "shenzhen" | "tokyo" | "osaka" | "seoul" | "manila"
         | "jakarta" | "bangkok" | "kuala lumpur" | "ho chi minh city" | "sao paulo" | "são paulo"
         | "rio de janeiro" | "buenos aires" | "bogota" | "bogotá" | "santiago de chile" | "lima" | "mexico df"
         | "istanbul" | "ankara" | "tel aviv" | "dubai" | "abu dhabi" | "doha" | "riyadh" | "cairo" | "lagos"
         | "nairobi" | "johannesburg" | "cape town" | "casablanca" | "accra" => true
    case _ => false
  }

  /** Continental Europe. */
  predicate IsEuropeanCity(name: string)
    ensures IsEuropeanCity(name) ==> name != ""
  {
    match name
    case "amsterdam" | "rotterdam" | "brussels" | "antwerp" | "copenhagen" | "stockholm" | "oslo" | "helsinki"
         | "warsaw" | "krakow" | "kraków" | "prague" | "budapest" | "bucharest" | "sofia" | "zagreb" | "vienna"
         | "zurich" | "zürich" | "geneva" | "munich" | "münchen" | "berlin" | "hamburg" | "frankfurt"
         | "cologne" | "köln" | "stuttgart" | "dusseldorf" | "düsseldorf" | "milan" | "milano" | "rome"
         | "roma" | "turin" | "torino" | "naples" | "napoli" | "barcelona" | "valencia" | "seville" | "lisbon"
         | "porto" | "athens greece" => true
    case _ => false
  }

  /** Subdivisions that are certainly not American. */
  predicate IsNonUsSubdivision(name: string)
    ensures IsNonUsSubdivision(name) ==> name != ""
  {
    IsCanadianOrIndianSubdivision(name) || IsOtherSubdivision(name)
  }

  /** Canada and India. */
  predicate IsCanadianOrIndianSubdivision(name: string)
    ensures IsCanadianOrIndianSubdivision(name) ==> name != ""
  {
    match name
    case "ontario" | "quebec" | "québec" | "british columbia" | "alberta" | "manitoba" | "saskatchewan"
         | "nova scotia" | "new brunswick" | "newfoundland and labrador" | "prince edward island" | "yukon"
         | "nunavut" | "northwest territories" | "on" | "qc" | "bc" | "ab" | "mb" | "sk" | "ns" | "nb" | "nl"
         | "pe" | "yt" | "nu" | "nt" | "maharashtra" | "karnataka" | "tamil nadu" | "telangana" | "gujarat"
         | "delhi" | "uttar pradesh" | "west bengal" | "haryana" | "kerala" | "rajasthan" | "punjab"
         | "andhra pradesh" | "madhya pradesh" | "bihar" | "odisha" => true
    case _ => false
  }

  /** Mexico, the British Isles, Oceania and others. */
  predicate IsOtherSubdivision(name: string)
    ensures IsOtherSubdivision(name) ==> name != ""
  {
    match name
    case "jalisco" | "nuevo leon" | "nuevo león" | "ciudad de mexico" | "ciudad de méxico" | "estado de mexico"
         | "guanajuato" | "puebla" | "queretaro" | "querétaro" | "baja california" | "chihuahua" | "yucatan"
         | "yucatán" | "england" | "scotland" | "wales" | "northern ireland" | "greater london" | "leinster"
         | "munster" | "connacht" | "ulster" | "new south wales" | "victoria" | "queensland"
         | "western australia" | "south australia" | "tasmania" | "australian capital territory" | "nsw"
         | "qld" | "vic" | "wa-au" | "auckland" | "wellington" | "canterbury" | "bavaria" | "bayern" | "hesse"
         | "hessen" | "catalonia" | "cataluña" | "madrid" | "île-de-france" | "ile-de-france" | "lombardy"
         | "lombardia" | "sao paulo" | "são paulo" | "gauteng" | "western cape" => true
    case _ => false
  }
}
