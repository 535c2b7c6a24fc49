/** The air quality index engine of the particulate page: the US EPA
    piecewise-linear interpolation (Equation 1 of the EPA Technical Assistance
    Document for the Reporting of Daily Air Quality, EPA-454/B-18-007) over the
    PM2.5 breakpoints in force before 2024, the four classifiers that map an
    index to a category label, a display colour, a background colour and the
    LED colour, and the 24-bit colour packing.

    Float arithmetic is modelled with exact reals. */
module Aqi {
  import opened Types

  /** Equation 1: linear interpolation of concentration cp inside the band
      [bpl, bph] onto the index range [il, ih]. */
  function CalcAqi(cp: real, ih: real, il: real, bph: real, bpl: real): (aq: real)
    requires bpl < bph
    ensures cp == bpl ==> aq == il
    ensures cp == bph ==> aq == ih
  {
    (ih - il) / (bph - bpl) * (cp - bpl) + il
  }

  /** Inside its band, Equation 1 stays inside the band's index range. */
  lemma CalcAqiWithinBand(cp: real, ih: real, il: real, bph: real, bpl: real)
    requires bpl < bph && il <= ih && bpl <= cp <= bph
    ensures il <= CalcAqi(cp, ih, il, bph, bpl) <= ih
  {
    var slope := (ih - il) / (bph - bpl);
    assert slope >= 0.0;
    assert slope * (cp - bpl) <= slope * (bph - bpl) by {
      assert slope * (bph - bpl) - slope * (cp - bpl) == slope * (bph - cp);
    }
    assert slope * (bph - bpl) == ih - il;
  }

  /** getAQIfromPM25: the band is chosen by strict comparison with its lower
      threshold, so a concentration between two published bands (12.0 and
      12.1, say) is extrapolated from the band below. Above 500.4 the top band
      is extrapolated too: there is no clamp at 500. */
  function AqiFromPm25(pm25: real): (aq: real)
    ensures pm25 <= 0.0 ==> aq == 0.0
    ensures pm25 > 0.0 ==> aq > 0.0
  {
    if pm25 > 350.5 then CalcAqi(pm25, 500.0, 401.0, 500.0, 350.5)
    else if pm25 > 250.5 then CalcAqi(pm25, 400.0, 301.0, 350.4, 250.5)
    else if pm25 > 150.5 then CalcAqi(pm25, 300.0, 201.0, 250.4, 150.5)
    else if pm25 > 55.5 then CalcAqi(pm25, 200.0, 151.0, 150.4, 55.5)
    else if pm25 > 35.5 then CalcAqi(pm25, 150.0, 101.0, 55.4, 35.5)
    else if pm25 > 12.1 then CalcAqi(pm25, 100.0, 51.0, 35.4, 12.1)
    else if pm25 > 0.0 then CalcAqi(pm25, 50.0, 0.0, 12.0, 0.0)
    else 0.0
  }

  /** The upper breakpoint of every band maps to the top of its index range. */
  lemma Breakpoints()
    ensures AqiFromPm25(12.0) == 50.0
    ensures AqiFromPm25(35.4) == 100.0
    ensures AqiFromPm25(55.4) == 150.0
    ensures AqiFromPm25(150.4) == 200.0
    ensures AqiFromPm25(250.4) == 300.0
    ensures AqiFromPm25(350.4) == 400.0
    ensures AqiFromPm25(500.0) == 500.0
  {
  }

  /** A higher concentration never gives a lower index, including across the
      gaps between bands. */
  lemma Monotonic(p: real, q: real)
    requires p <= q
    ensures AqiFromPm25(p) <= AqiFromPm25(q)
  {
  }

  /** Beyond the top breakpoint the index keeps growing past 500. */
  lemma NoClampAbove500(p: real)
    requires p > 500.0
    ensures AqiFromPm25(p) > 500.0
  {
  }

  /** The largest uint16_t concentration gives an index that still fits a
      uint16_t, so the truncating cast at the call site is well defined. */
  lemma FitsU16(c: u16)
    ensures 0.0 <= AqiFromPm25(c as real) < 43567.0
  {
    Monotonic(c as real, 65535.0);
  }

  /** The call site of pm_task: a uint16_t concentration in, the index
      truncated to uint16_t out. */
  function PmAqi(c: u16): (aqi: u16)
    ensures aqi as real <= AqiFromPm25(c as real) < aqi as real + 1.0
  {
    FitsU16(c);
    AqiFromPm25(c as real).Floor
  }

  /** The six AQI categories, and Unknown for a negative index. */
  datatype Category = Good | Moderate | SensitiveGroups | Unhealthy | VeryUnhealthy | Hazardous | Unknown

  /** The category of an index: thresholds 301, 201, 151, 101, 51 and 0, each
      tested with >= from the top down. */
  function CategoryOf(aq: real): (c: Category)
    ensures c == Unknown <==> aq < 0.0
  {
    if aq >= 301.0 then Hazardous
    else if aq >= 201.0 then VeryUnhealthy
    else if aq >= 151.0 then Unhealthy
    else if aq >= 101.0 then SensitiveGroups
    else if aq >= 51.0 then Moderate
    else if aq >= 0.0 then Good
    else Unknown
  }

  /** The EPA category of a whole-number PM2.5 concentration, read directly
      from the published concentration ranges (0-12.0, 12.1-35.4, 35.5-55.4,
      55.5-150.4, 150.5-250.4, 250.5 and up), without any interpolation. */
  function EpaCategory(c: nat): Category
  {
    if c <= 12 then Good
    else if c <= 35 then Moderate
    else if c <= 55 then SensitiveGroups
    else if c <= 150 then Unhealthy
    else if c <= 250 then VeryUnhealthy
    else Hazardous
  }

  /** The truncated index of a whole-number concentration falls in the
      category the EPA table assigns to that concentration: the strict
      thresholds and the extrapolation across band gaps never move a reading
      into a neighbouring category. */
  lemma PmAqiCategory(c: u16)
    ensures CategoryOf(PmAqi(c) as real) == EpaCategory(c)
  {
    var a := AqiFromPm25(c as real);
    if c <= 12 {
      CalcAqiWithinBand(c as real, 50.0, 0.0, 12.0, 0.0);
    } else if c <= 35 {
      CalcAqiWithinBand(c as real, 100.0, 51.0, 35.4, 12.1);
    } else if c <= 55 {
      CalcAqiWithinBand(c as real, 150.0, 101.0, 55.4, 35.5);
    } else if c <= 150 {
      CalcAqiWithinBand(c as real, 200.0, 151.0, 150.4, 55.5);
    } else if c <= 250 {
      CalcAqiWithinBand(c as real, 300.0, 201.0, 250.4, 150.5);
    } else {
      Monotonic(251.0, c as real);
    }
  }

  /** getStringForAQI */
  function LabelFor(aq: real): (s: string)
    ensures s == CategoryName(CategoryOf(aq))
  {
    if aq >= 301.0 then "Hazardous"
    else if aq >= 201.0 then "Very Unhealthy"
    else if aq >= 151.0 then "Unhealthy"
    else if aq >= 101.0 then "Unhealthy for\nSensitive Groups"
    else if aq >= 51.0 then "Moderate"
    else if aq >= 0.0 then "Good"
    else "Unknown"
  }

  /** The display name of each category. */
  function CategoryName(c: Category): string
  {
    match c
    case Hazardous => "Hazardous"
    case VeryUnhealthy => "Very Unhealthy"
    case Unhealthy => "Unhealthy"
    case SensitiveGroups => "Unhealthy for\nSensitive Groups"
    case Moderate => "Moderate"
    case Good => "Good"
    case Unknown => "Unknown"
  }

  /** A colour with 8-bit channels. */
  datatype Rgb = Rgb(red: u8, green: u8, blue: u8)

  const Black: Rgb := Rgb(0, 0, 0)

  /** rgbToInt: (red << 16) + (green << 8) + blue. */
  function RgbToInt(red: u8, green: u8, blue: u8): (x: int)
    ensures 0 <= x < 0x100_0000
  {
    red * 0x1_0000 + green * 0x100 + blue
  }

  function Pack(c: Rgb): int
  {
    RgbToInt(c.red, c.green, c.blue)
  }

  /** The unpacking in pm_task: (x >> 16) & 0xFF, (x >> 8) & 0xFF, x & 0xFF.
      An arithmetic right shift is a floor division and & 0xFF is the
      non-negative remainder modulo 256, which is what Dafny's / and % give
      for a positive divisor. */
  function Unpack(x: int): Rgb
  {
    Rgb((x / 0x1_0000) % 0x100, (x / 0x100) % 0x100, x % 0x100)
  }

  /** Unpacking a packed colour gives each channel back. */
  lemma UnpackPack(c: Rgb)
    ensures Unpack(Pack(c)) == c
  {
  }

  /** Every 24-bit value is the packing of exactly one colour. */
  lemma PackUnpack(x: int)
    requires 0 <= x < 0x100_0000
    ensures Pack(Unpack(x)) == x
  {
    var hi, rest := x / 0x1_0000, x % 0x1_0000;
    assert x / 0x100 == hi * 0x100 + rest / 0x100;
    assert (x / 0x100) % 0x100 == rest / 0x100;
    assert x % 0x100 == rest % 0x100;
  }

  /** The primary colour of each category (the AQI colour scale). */
  function CategoryColor(c: Category): Rgb
  {
    match c
    case Hazardous => Rgb(126, 0, 35)
    case VeryUnhealthy => Rgb(143, 63, 151)
    case Unhealthy => Rgb(255, 0, 0)
    case SensitiveGroups => Rgb(255, 126, 0)
    case Moderate => Rgb(255, 255, 0)
    case Good => Rgb(0, 128, 0)
    case Unknown => Black
  }

  /** The pale background colour of each category. */
  function CategoryAltColor(c: Category): Rgb
  {
    match c
    case Hazardous => Rgb(200, 110, 135)
    case VeryUnhealthy => Rgb(200, 153, 204)
    case Unhealthy => Rgb(245, 157, 157)
    case SensitiveGroups => Rgb(235, 171, 108)
    case Moderate => Rgb(242, 242, 153)
    case Good => Rgb(123, 224, 123)
    case Unknown => Black
  }

  /** mapAQItoColor: the packed primary colour of the category of the index,
      black for a negative index. */
  function MapAqiToColor(aq: real): (x: int)
    ensures x == Pack(CategoryColor(CategoryOf(aq)))
  {
    var c := CategoryColor(CategoryOf(aq));
    if aq >= 301.0 then assert c == Rgb(126, 0, 35); RgbToInt(126, 0, 35)
    else if aq >= 201.0 then assert c == Rgb(143, 63, 151); RgbToInt(143, 63, 151)
    else if aq >= 151.0 then assert c == Rgb(255, 0, 0); RgbToInt(255, 0, 0)
    else if aq >= 101.0 then assert c == Rgb(255, 126, 0); RgbToInt(255, 126, 0)
    else if aq >= 51.0 then assert c == Rgb(255, 255, 0); RgbToInt(255, 255, 0)
    else if aq >= 0.0 then assert c == Rgb(0, 128, 0); RgbToInt(0, 128, 0)
    else assert c == Black; RgbToInt(0, 0, 0)
  }

  /** mapAQItoAltColor: the packed pale background colour of the category of
      the index, black for a negative index. */
  function MapAqiToAltColor(aq: real): (x: int)
    ensures x == Pack(CategoryAltColor(CategoryOf(aq)))
  {
    var c := CategoryAltColor(CategoryOf(aq));
    if aq >= 301.0 then assert c == Rgb(200, 110, 135); RgbToInt(200, 110, 135)
    else if aq >= 201.0 then assert c == Rgb(200, 153, 204); RgbToInt(200, 153, 204)
    else if aq >= 151.0 then assert c == Rgb(245, 157, 157); RgbToInt(245, 157, 157)
    else if aq >= 101.0 then assert c == Rgb(235, 171, 108); RgbToInt(235, 171, 108)
    else if aq >= 51.0 then assert c == Rgb(242, 242, 153); RgbToInt(242, 242, 153)
    else if aq >= 0.0 then assert c == Rgb(123, 224, 123); RgbToInt(123, 224, 123)
    else assert c == Black; RgbToInt(0, 0, 0)
  }

  /** update_AQI: the LED colour after the call; a negative index matches no
      branch and leaves the LED as it was. */
  function UpdateAqi(aq: real, led: Rgb): (next: Rgb)
    ensures aq < 0.0 ==> next == led
    ensures aq >= 0.0 ==> next == CategoryColor(CategoryOf(aq))
  {
    if aq >= 301.0 then Rgb(126, 0, 35)
    else if aq >= 201.0 then Rgb(143, 63, 151)
    else if aq >= 151.0 then Rgb(255, 0, 0)
    else if aq >= 101.0 then Rgb(255, 126, 0)
    else if aq >= 51.0 then Rgb(255, 255, 0)
    else if aq >= 0.0 then Rgb(0, 128, 0)
    else led
  }

  /** Distinct categories have distinct labels, colours and background
      colours, so each classifier separates exactly the categories. */
  lemma CategoryTablesInjective(c: Category, d: Category)
    ensures CategoryName(c) == CategoryName(d) <==> c == d
    ensures CategoryColor(c) == CategoryColor(d) <==> c == d
    ensures CategoryAltColor(c) == CategoryAltColor(d) <==> c == d
  {
  }

  /** The four classifiers agree: two indices get the same label exactly when
      they get the same primary colour, exactly when they get the same
      background colour, exactly when they fall in the same category. */
  lemma ClassifiersAgree(a: real, b: real)
    ensures LabelFor(a) == LabelFor(b) <==> CategoryOf(a) == CategoryOf(b)
    ensures MapAqiToColor(a) == MapAqiToColor(b) <==> CategoryOf(a) == CategoryOf(b)
    ensures MapAqiToAltColor(a) == MapAqiToAltColor(b) <==> CategoryOf(a) == CategoryOf(b)
  {
    CategoryTablesInjective(CategoryOf(a), CategoryOf(b));
    var ca, cb := CategoryColor(CategoryOf(a)), CategoryColor(CategoryOf(b));
    UnpackPack(ca);
    UnpackPack(cb);
    var aa, ab := CategoryAltColor(CategoryOf(a)), CategoryAltColor(CategoryOf(b));
    UnpackPack(aa);
    UnpackPack(ab);
  }

  /** The LED shows the colour the display panel shows, once unpacked. */
  lemma LedMatchesPanel(aq: real, led: Rgb)
    requires aq >= 0.0
    ensures UpdateAqi(aq, led) == Unpack(MapAqiToColor(aq))
  {
    UnpackPack(CategoryColor(CategoryOf(aq)));
  }
}
