/** The listing builder of `extract_apartments.py`: for every screenshot in
    the folder, the OCR text has its whitespace collapsed, an address and a
    price are picked out of it, the company is looked up, and a record is
    kept when an address was found; five synthetic listings are appended. */
module ExtractApartments {
  import opened Wrappers
  import opened Seqs
  import opened Text
  import opened Numerals

  /** One row of `sublets.csv`. */
  datatype Record = Record(address: string, monthlyRent: real, company: string)

  /** A directory entry with the text OCR reads from it. */
  datatype ImageFile = ImageFile(name: string, text: string)

  /** The three regular expressions, as searches over the cleaned text: the
      address search yields its two groups (house number, street), each
      price search its one group. */
  datatype Matchers = Matchers(address: string -> Option<(string, string)>,
                               price1: string -> Option<string>,
                               price2: string -> Option<string>)

  /** What the first price pattern's group can match: one to five digits,
      optionally followed by a comma and three digits. */
  predicate Price1Shape(g: string)
  {
    (1 <= |g| <= 5 && AllDigits(g))
    || (5 <= |g| <= 9 && g[|g| - 4] == ',' && AllDigits(g[..|g| - 4]) && AllDigits(g[|g| - 3..]))
  }

  /** What the second price pattern's group can match: three to five digits. */
  predicate Price2Shape(g: string)
  {
    3 <= |g| <= 5 && AllDigits(g)
  }

  /** The searches return only groups their patterns can match. */
  ghost predicate WellFormed(m: Matchers)
  {
    (forall t :: m.price1(t).Some? ==> Price1Shape(m.price1(t).value))
    && (forall t :: m.price2(t).Some? ==> Price2Shape(m.price2(t).value))
  }

  const COMPANY_LOOKUP: map<string, string> := map[
    "295 Lester St, Waterloo" := "Rent My Space",
    "256 Phillip St, Waterloo" := "RezOne",
    "250 Albert St, Waterloo" := "Private Apartment Company/Townhouse",
    "433 Keats Way, Waterloo" := "Private Apartment Company/Townhouse",
    "365 Albert St, Waterloo" := "Accommod8u",
    "388 Hazel St, Waterloo" := "Private Apartment Company/Townhouse",
    "277 Lester St, Waterloo" := "Private Apartment Company/Townhouse",
    "300 Keats Way, Waterloo" := "Private Apartment Company/Townhouse",
    "16 Cardill Cres, Waterloo" := "Private Apartment Company/Townhouse",
    "20 Cardill Cres, Waterloo" := "Private Apartment Company/Townhouse",
    "251 Hemlock St, Waterloo" := "Sage 6 Platinum",
    "280 Phillip St, Waterloo" := "WCRI A-Dorm",
    "132 Brighton St, Waterloo" := "Private Apartment Company/Townhouse",
    "52 Cardill Cres, Waterloo" := "Private Apartment Company/Townhouse",
    "254 Toll Gate Blvd, Waterloo" := "Private Apartment Company/Townhouse",
    "271 Westcourt Pl, Waterloo" := "Private Apartment Company/Townhouse",
    "320 Westcourt Pl, Waterloo" := "Private Apartment Company/Townhouse",
    "261 Lester St, Waterloo" := "Private Apartment Company/Townhouse"
  ]

  const UNKNOWN := "Unknown"
  const PRIVATE_PROPERTY := "Private Property"

  /** The synthetic edge-case listings appended after the extracted ones. */
  const SYNTHETIC: seq<Record> := [
    Record("100 Test St, Waterloo", 0.0, "Foster Residence"),
    Record("101 Test St, Waterloo", 200.0, PRIVATE_PROPERTY),
    Record("102 Test St, Waterloo", 300.0, PRIVATE_PROPERTY),
    Record("103 Test St, Waterloo", 400.0, PRIVATE_PROPERTY),
    Record("104 Test St, Waterloo", 500.0, PRIVATE_PROPERTY)
  ]

  predicate EndsWith(s: string, suffix: string)
  {
    |suffix| <= |s| && s[|s| - |suffix|..] == suffix
  }

  /** `file_name.lower().endswith(('.png', '.jpg', '.jpeg'))`. */
  predicate IsImageName(name: string)
  {
    var l := Lower(name);
    EndsWith(l, ".png") || EndsWith(l, ".jpg") || EndsWith(l, ".jpeg")
  }

  /** The address string: "<number> <street>, Waterloo" from the match,
      or "Unknown" when the search finds nothing. */
  function AddressFor(groups: Option<(string, string)>): (a: string)
    ensures groups.None? <==> a == UNKNOWN
    ensures groups.Some? ==>
              var (number, street) := groups.value;
              |a| == |number| + 1 + |street| + 10 && EndsWith(a, ", Waterloo")
              && a[..|number|] == number && a[|number|] == ' '
              && a[|number| + 1..|number| + 1 + |street|] == street
  {
    match groups
    case None => UNKNOWN
    case Some((number, street)) =>
      var a := number + " " + street + ", Waterloo";
      assert |a| > |UNKNOWN|;
      a
  }

  /** The company: the lookup table's entry for the address, otherwise
      "Private Property". */
  function Company(address: string): (c: string)
    ensures address in COMPANY_LOOKUP ==> c == COMPANY_LOOKUP[address]
    ensures address !in COMPANY_LOOKUP ==> c == PRIVATE_PROPERTY
  {
    if address in COMPANY_LOOKUP then COMPANY_LOOKUP[address] else PRIVATE_PROPERTY
  }

  /** A matched price group without its comma is a non-empty digit string. */
  lemma ShapedPriceDigits(g: string)
    requires Price1Shape(g) || Price2Shape(g)
    ensures var d := Remove(g, ',');
            d != [] && AllDigits(d) && |d| <= 8
            && (Price2Shape(g) ==> |d| <= 5)
  {
    if 1 <= |g| <= 5 && AllDigits(g) {
      RemoveAbsent(g, ',');
    } else {
      var k := |g| - 4;
      var head, tail := g[..k], g[k + 1..];
      assert g == head + [','] + tail;
      assert tail == g[|g| - 3..];
      RemoveSeparator(head, tail, ',');
      assert AllDigits(head + tail);
    }
  }

  /** `float(group.replace(',', ''))` on a matched price group: never
      raises, never negative, below 10^8, and below 10^5 for the second
      pattern. */
  function MatchedPrice(g: string): (p: real)
    requires Price1Shape(g) || Price2Shape(g)
    ensures PyFloat(Remove(g, ',')) == Some(p)
    ensures 0.0 <= p < 100000000.0
    ensures Price2Shape(g) ==> p < 100000.0
  {
    var d := Remove(g, ',');
    ShapedPriceDigits(g);
    StripStripped(d);
    DigitsParse(d);
    Pow10Monotone(|d|, 8);
    assert Pow10(8) == 100000000;
    if Price2Shape(g) then
      Pow10Monotone(|d|, 5);
      assert Pow10(5) == 100000;
      DigitsValue(d) as real
    else DigitsValue(d) as real
  }

  /** The price of a listing: the first pattern's group when it matches,
      otherwise the second pattern's, otherwise 0. */
  function ExtractPrice(cleaned: string, m: Matchers): (p: real)
    requires WellFormed(m)
    ensures m.price1(cleaned).Some? ==> PyFloat(Remove(m.price1(cleaned).value, ',')) == Some(p)
    ensures m.price1(cleaned).None? && m.price2(cleaned).Some? ==>
              PyFloat(Remove(m.price2(cleaned).value, ',')) == Some(p)
    ensures m.price1(cleaned).None? && m.price2(cleaned).None? ==> p == 0.0
    ensures 0.0 <= p < 100000000.0
  {
    match m.price1(cleaned)
    case Some(g) => MatchedPrice(g)
    case None =>
      match m.price2(cleaned)
      case Some(g) => MatchedPrice(g)
      case None => 0.0
  }

  /** "$1,200/month" read by the first pattern is a rent of 1200. */
  lemma CommaPriceRead()
    ensures MatchedPrice("1,200") == 1200.0
  {
    assert Price1Shape("1,200") by {
      assert "1,200"[..1] == "1" && "1,200"[2..] == "200";
    }
    CommaRemovedFromTwelveHundred();
    TwelveHundred();
  }

  /** The cleaned OCR text of a file. */
  function Cleaned(f: ImageFile): string
  {
    CollapseWhitespace(f.text)
  }

  /** A file yields a record when it is an image and its address was found. */
  predicate Saved(m: Matchers, f: ImageFile)
  {
    IsImageName(f.name) && m.address(Cleaned(f)).Some?
  }

  /** The record assembled for one image. */
  function RecordOf(f: ImageFile, m: Matchers): (r: Record)
    requires WellFormed(m)
    ensures r.address == AddressFor(m.address(Cleaned(f)))
    ensures r.monthlyRent == ExtractPrice(Cleaned(f), m)
    ensures r.company == Company(r.address)
  {
    var cleaned := Cleaned(f);
    var address := AddressFor(m.address(cleaned));
    Record(address, ExtractPrice(cleaned, m), Company(address))
  }

  /** What one directory entry contributes: its record when it is saved. */
  function FileRecords(f: ImageFile, m: Matchers): (r: seq<Record>)
    requires WellFormed(m)
  {
    if Saved(m, f) then [RecordOf(f, m)] else []
  }

  /** The records of the folder's files, in directory order. */
  function Extracted(files: seq<ImageFile>, m: Matchers): seq<Record>
    requires WellFormed(m)
  {
    Concat(files, f requires WellFormed(m) => FileRecords(f, m))
  }

  /** The first file's records come first. */
  lemma ExtractedCons(files: seq<ImageFile>, m: Matchers)
    requires WellFormed(m) && files != []
    ensures Extracted(files, m) == FileRecords(files[0], m) + Extracted(files[1..], m)
  {
  }

  /** One more file appends that file's records. */
  lemma ExtractedStep(files: seq<ImageFile>, i: nat, m: Matchers)
    requires WellFormed(m) && i < |files|
    ensures Extracted(files[..i + 1], m) == Extracted(files[..i], m) + FileRecords(files[i], m)
  {
    assert files[..i + 1] == files[..i] + [files[i]];
    ConcatAppend(files[..i], [files[i]], f requires WellFormed(m) => FileRecords(f, m));
  }

  /** The body of the loop for one image: the cleaned text, the address,
      the price with its fallbacks, the company, and whether it is saved. */
  method AssembleRecord(f: ImageFile, m: Matchers) returns (record: Record, save: bool)
    requires WellFormed(m) && IsImageName(f.name)
    ensures record == RecordOf(f, m)
    ensures save <==> Saved(m, f)
  {
    var cleaned := CollapseWhitespace(f.text);
    var address := AddressFor(m.address(cleaned));
    var price := 0.0;
    var match1 := m.price1(cleaned);
    if match1.Some? {
      price := MatchedPrice(match1.value);
    } else {
      var match2 := m.price2(cleaned);
      if match2.Some? {
        price := MatchedPrice(match2.value);
      }
    }
    var company := Company(address);
    record := Record(address, price, company);
    save := address != UNKNOWN;
  }

  /** The per-file loop followed by `data.extend(synthetic_entries)`. */
  method ExtractListings(files: seq<ImageFile>, m: Matchers) returns (data: seq<Record>)
    requires WellFormed(m)
    ensures data == Extracted(files, m) + SYNTHETIC
  {
    data := [];
    var i := 0;
    while i < |files|
      invariant 0 <= i <= |files|
      invariant data == Extracted(files[..i], m)
    {
      var f := files[i];
      ghost var before := data;
      if IsImageName(f.name) {
        var record, save := AssembleRecord(f, m);
        if save {
          data := data + [record];
        }
      }
      assert data == before + FileRecords(f, m);
      ExtractedStep(files, i, m);
      i := i + 1;
    }
    assert files[..i] == files;
    data := data + SYNTHETIC;
  }

  /** Exactly the image files whose address was found give a record, in
      directory order, each assembled from its own text. */
  lemma ExtractedAreSavedFiles(files: seq<ImageFile>, m: Matchers)
    requires WellFormed(m)
    ensures var saved := Filter(files, f => Saved(m, f));
            |Extracted(files, m)| == |saved|
            && forall i :: 0 <= i < |saved| ==> Extracted(files, m)[i] == RecordOf(saved[i], m)
  {
    var g := f requires WellFormed(m) => FileRecords(f, m);
    var h := f requires WellFormed(m) => RecordOf(f, m);
    ConcatFilter(files, g, f => Saved(m, f), h);
  }

  /** Every extracted record has a found address ending in ", Waterloo", a
      price in range, and the lookup company or "Private Property". */
  lemma {:induction false} ExtractedRecordsWellFormed(files: seq<ImageFile>, m: Matchers)
    requires WellFormed(m)
    ensures forall r :: r in Extracted(files, m) ==> GoodRecord(r)
  {
    var saved := Filter(files, f => Saved(m, f));
    ExtractedAreSavedFiles(files, m);
    forall r | r in Extracted(files, m)
      ensures GoodRecord(r)
    {
      var i :| 0 <= i < |Extracted(files, m)| && Extracted(files, m)[i] == r;
      SavedRecordGood(saved[i], m);
    }
  }

  /** A found address ending in ", Waterloo", a price in range, and the
      lookup company or "Private Property". */
  predicate GoodRecord(r: Record) {
    r.address != UNKNOWN && EndsWith(r.address, ", Waterloo")
    && 0.0 <= r.monthlyRent < 100000000.0
    && (r.company == PRIVATE_PROPERTY
        || (r.address in COMPANY_LOOKUP && r.company == COMPANY_LOOKUP[r.address]))
  }

  lemma SavedRecordGood(f: ImageFile, m: Matchers)
    requires WellFormed(m) && Saved(m, f)
    ensures GoodRecord(RecordOf(f, m))
  {
  }

  /** A listing without a recognisable address is dropped even when its
      price was read. */
  lemma UnknownAddressDropped(f: ImageFile, m: Matchers)
    requires WellFormed(m) && m.address(Cleaned(f)).None?
    ensures Extracted([f], m) == []
  {
    ExtractedCons([f], m);
    assert [f][1..] == [];
  }
}
