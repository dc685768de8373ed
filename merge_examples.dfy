/** Worked scenarios of the merge script: one record read by field names, one
    found by scanning, and the file-name fallback. */
module MergeExamples {
  import opened Options
  import opened JsString
  import opened JsNumber
  import opened Json
  import opened Merge

  /** 36 and 10, and the decimals 36.8 and 10.2. */
  lemma DigitFacts()
    ensures AllDigits("36") && AllDigits("8") && AllDigits("10") && AllDigits("2")
    ensures LiteralValue(Literal("36", "8", 0)) == 36.8
    ensures LiteralValue(Literal("10", "2", 0)) == 10.2
  {
    assert "36"[..1] == "3" && "3"[..0] == "";
    assert "10"[..1] == "1" && "1"[..0] == "";
    assert "8"[..0] == "" && "2"[..0] == "";
    assert Pow10(1) == 10;
  }

  /** A school row of `ecole.json`: the name and the two coordinate texts. */
  function SchoolRow(name: string, lat: string, lng: string): Json {
    Obj([("nom_etablissement", Str(name)), ("Latitude initiale", Str(lat)), ("Longitude initiale", Str(lng))])
  }

  /** The three properties of a school row, looked up by name. */
  lemma SchoolRowFields(name: string, lat: string, lng: string)
    ensures Get(SchoolRow(name, lat, lng), "nom_etablissement") == Some(Str(name))
    ensures Get(SchoolRow(name, lat, lng), "nom_etablissement_ar").None?
    ensures Get(SchoolRow(name, lat, lng), "Latitude initiale") == Some(Str(lat))
    ensures Get(SchoolRow(name, lat, lng), "Longitude initiale") == Some(Str(lng))
  {
    var f := SchoolRow(name, lat, lng).fields;
    assert "nom_etablissement"[0] != "Latitude initiale"[0];
    assert "nom_etablissement"[0] != "Longitude initiale"[0];
    assert "Latitude initiale"[1] != "Longitude initiale"[1];
    assert |"nom_etablissement"| != |"nom_etablissement_ar"|;
    assert "nom_etablissement_ar"[0] != "Latitude initiale"[0];
    assert "nom_etablissement_ar"[0] != "Longitude initiale"[0];
    assert f[1..][1..] == [("Longitude initiale", Str(lng))];
    assert f[1..][1..][1..] == [];
    assert Field(f, "Latitude initiale") == Field(f[1..], "Latitude initiale");
    assert Field(f, "Longitude initiale") == Field(f[1..][1..], "Longitude initiale");
    assert Field(f, "nom_etablissement_ar") == Field(f[1..], "nom_etablissement_ar")
        == Field(f[1..][1..], "nom_etablissement_ar") == Field(f[1..][1..][1..], "nom_etablissement_ar");
  }

  /** What the explicit strategy reads from a school row with non-empty texts. */
  lemma SchoolRowReads(name: string, lat: string, lng: string)
    requires name != [] && lat != [] && lng != []
    ensures TextOrEmpty(Get(SchoolRow(name, lat, lng), "Latitude initiale")) == lat
    ensures TextOrEmpty(Get(SchoolRow(name, lat, lng), "Longitude initiale")) == lng
    ensures Or(Get(SchoolRow(name, lat, lng), "nom_etablissement"), Get(SchoolRow(name, lat, lng), "nom_etablissement_ar"))
         == Some(Str(name))
  {
    SchoolRowFields(name, lat, lng);
    assert Truthy(Str(name)) && Truthy(Str(lat)) && Truthy(Str(lng));
  }

  /** The final test with truthy coordinates and a non-empty name emits the cleaned
      name, the category and the coordinates as they are. */
  lemma AcceptEmits(lat: Number, lng: Number, n: string, category: string)
    requires TruthyNumber(lat) && TruthyNumber(lng) && n != []
    ensures Accept(lat, lng, Some(Str(n)), category) == Emit(Location(CleanName(n), category, lat, lng))
  {
    var o := Accept(lat, lng, Some(Str(n)), category);
    assert o.Emit?;
    var l := o.loc;
    assert l.nom == CleanName(n) && l.categorie == category && l.lat == lat && l.lng == lng;
    assert l == Location(CleanName(n), category, lat, lng);
  }

  /** A school row whose coordinates are written with a decimal comma ("36,8") is
      emitted with the decimal values, as long as neither is zero. */
  lemma CommaRowEmitted(name: string, a: string, b: string, c: string, d: string, category: string)
    requires name != [] && a != [] && c != []
    requires AllDigits(a) && AllDigits(b) && AllDigits(c) && AllDigits(d)
    requires LiteralValue(Literal(a, b, 0)) != 0.0 && LiteralValue(Literal(c, d, 0)) != 0.0
    ensures ExplicitOutcome(SchoolRow(name, a + "," + b, c + "," + d), category)
         == Emit(Location(CleanName(name), category,
                          Finite(LiteralValue(Literal(a, b, 0))), Finite(LiteralValue(Literal(c, d, 0)))))
  {
    var item := SchoolRow(name, a + "," + b, c + "," + d);
    SchoolRowFields(name, a + "," + b, c + "," + d);
    SchoolRowReads(name, a + "," + b, c + "," + d);
    CommaDecimal(a, b);
    CommaDecimal(c, d);
    ExplicitRow(item, category, name);
  }

  /** A school row at "500", "10" is emitted at latitude 500: the explicit strategy
      puts no bound on the coordinates it parses. */
  lemma OutOfRangeSchoolEmitted(name: string, category: string)
    requires name != []
    ensures ExplicitOutcome(SchoolRow(name, "500", "10"), category)
         == Emit(Location(CleanName(name), category, Finite(500.0), Finite(10.0)))
  {
    var item := SchoolRow(name, "500", "10");
    assert AllDigits("500") && AllDigits("10");
    assert "500"[..2] == "50" && "50"[..1] == "5" && "5"[..0] == "";
    assert "10"[..1] == "1" && "1"[..0] == "";
    assert DigitsValue("500") == 500 && DigitsValue("10") == 10;
    SchoolRowFields(name, "500", "10");
    SchoolRowReads(name, "500", "10");
    IntegerNoComma("500");
    IntegerNoComma("10");
    ExplicitRow(item, category, name);
  }

  /** A school row without `nom_etablissement`: the Arabic name is used. */
  lemma ArabicNameUsed(nameAr: string, a: string, b: string, c: string, d: string, category: string)
    requires nameAr != [] && a != [] && c != []
    requires AllDigits(a) && AllDigits(b) && AllDigits(c) && AllDigits(d)
    requires LiteralValue(Literal(a, b, 0)) != 0.0 && LiteralValue(Literal(c, d, 0)) != 0.0
    ensures ExplicitOutcome(Obj([("nom_etablissement_ar", Str(nameAr)), ("Latitude initiale", Str(a + "," + b)),
                                 ("Longitude initiale", Str(c + "," + d))]), category)
         == Emit(Location(CleanName(nameAr), category,
                          Finite(LiteralValue(Literal(a, b, 0))), Finite(LiteralValue(Literal(c, d, 0)))))
  {
    var f := [("nom_etablissement_ar", Str(nameAr)), ("Latitude initiale", Str(a + "," + b)), ("Longitude initiale", Str(c + "," + d))];
    assert |"nom_etablissement"| != |"nom_etablissement_ar"|;
    assert "nom_etablissement"[0] != "Latitude initiale"[0] && "nom_etablissement"[0] != "Longitude initiale"[0];
    assert "nom_etablissement_ar"[0] != "Latitude initiale"[0] && "nom_etablissement_ar"[0] != "Longitude initiale"[0];
    assert "Latitude initiale"[1] != "Longitude initiale"[1];
    assert f[1..][1..] == [("Longitude initiale", Str(c + "," + d))] && f[1..][1..][1..] == [];
    assert Field(f, "nom_etablissement") == Field(f[1..], "nom_etablissement")
        == Field(f[1..][1..], "nom_etablissement") == Field(f[1..][1..][1..], "nom_etablissement") == None;
    assert Field(f, "Latitude initiale") == Field(f[1..], "Latitude initiale") == Some(Str(a + "," + b));
    assert Field(f, "Longitude initiale") == Field(f[1..][1..], "Longitude initiale") == Some(Str(c + "," + d));
    assert Truthy(Str(a + "," + b)) && Truthy(Str(c + "," + d));
    assert ToText(Str(a + "," + b)) == a + "," + b && ToText(Str(c + "," + d)) == c + "," + d;
    CommaDecimal(a, b);
    CommaDecimal(c, d);
    ExplicitRow(Obj(f), category, nameAr);
  }

  /** A school at "36,8", "10,2" whose name needs no cleaning is emitted at 36.8,
      10.2 with its name unchanged. */
  lemma SchoolRowEmitted(name: string, category: string)
    requires name != [] && IsTrimmed(name) && NoLineBreaks(name)
    ensures ExplicitOutcome(SchoolRow(name, "36,8", "10,2"), category)
         == Emit(Location(name, category, Finite(36.8), Finite(10.2)))
  {
    DigitFacts();
    assert "36" + "," + "8" == "36,8" && "10" + "," + "2" == "10,2";
    CommaRowEmitted(name, "36", "8", "10", "2", category);
    ReplaceLineBreaksNone(name);
    TrimTrimmed(name);
  }

  /** A name made only of whitespace passes the final test (it is a non-empty
      string) and is emitted empty once cleaned. */
  lemma BlankNameEmitted(name: string, a: string, b: string, c: string, d: string, category: string)
    requires name != [] && AllWhitespace(name) && a != [] && c != []
    requires AllDigits(a) && AllDigits(b) && AllDigits(c) && AllDigits(d)
    requires LiteralValue(Literal(a, b, 0)) != 0.0 && LiteralValue(Literal(c, d, 0)) != 0.0
    ensures ExplicitOutcome(SchoolRow(name, a + "," + b, c + "," + d), category).Emit?
    ensures ExplicitOutcome(SchoolRow(name, a + "," + b, c + "," + d), category).loc.nom == []
  {
    CommaRowEmitted(name, a, b, c, d, category);
    ReplaceLineBreaksBlank(name);
  }

  /** A digit string without a comma reads as its integer value. */
  lemma ReadInteger(id: string)
    requires id != [] && AllDigits(id)
    ensures ScanNumber(Str(id)) == Finite(DigitsValue(id) as real)
  {
    DigitsTrimmed(id);
    assert ToText(Str(id)) == id;
    TrimTrimmed(id);
    assert ScanNumber(Str(id)) == ParseFloat(ReplaceFirst(id, ",", "."));
    IntegerNoComma(id);
  }

  /** A comma decimal reads as its decimal value. */
  lemma ReadComma(a: string, b: string)
    requires a != [] && AllDigits(a) && AllDigits(b)
    ensures ScanNumber(Str(a + "," + b)) == Finite(LiteralValue(Literal(a, b, 0)))
  {
    var s := a + "," + b;
    assert IsTrimmed(s) by {
      assert s[0] == a[0] && !IsWhitespace(s[0]);
      DigitsTrimmed(b);
      if b != [] {
        assert s[|s| - 1] == b[|b| - 1];
      }
    }
    TrimTrimmed(s);
    assert ToText(Str(s)) == s;
    assert ScanNumber(Str(s)) == ParseFloat(ReplaceFirst(s, ",", "."));
    CommaDecimal(a, b);
  }

  /** A number outside both bands is ignored by the scan. */
  lemma ReadIgnored(id: string)
    requires id != [] && AllDigits(id) && !InBand(Lat, DigitsValue(id) as real) && !InBand(Lng, DigitsValue(id) as real)
    ensures Read(Str(id)) == Ignored
  {
    ReadInteger(id);
    ReadRules(Str(id));
  }

  /** A comma decimal inside a band is a coordinate on that band's axis. */
  lemma ReadCoordinate(a: string, b: string, axis: Axis)
    requires a != [] && AllDigits(a) && AllDigits(b) && InBand(axis, LiteralValue(Literal(a, b, 0)))
    ensures Read(Str(a + "," + b)) == Coord(axis, LiteralValue(Literal(a, b, 0)))
  {
    ReadComma(a, b);
    ReadRules(Str(a + "," + b));
  }

  /** A trimmed text with no comma that starts with a letter other than 'I' does not
      read as a number: it is a name candidate. */
  lemma ReadName(name: string)
    requires name != [] && IsTrimmed(name) && ',' !in name
    requires ('a' <= name[0] <= 'z' || 'A' <= name[0] <= 'Z') && name[0] != 'I'
    ensures Read(Str(name)) == Name(name)
  {
    assert ToText(Str(name)) == name;
    TrimTrimmed(name);
    ReplaceFirstNoComma(name);
    NotANumber(name);
  }

  /** An indexed row `{"0": id, "1": name, "2": "a,b", "3": "c,d"}`. */
  function IndexedRow(id: string, name: string, lat: string, lng: string): Json {
    Obj([("0", Str(id)), ("1", Str(name)), ("2", Str(lat)), ("3", Str(lng))])
  }

  /** A sequence of four is the display of its four elements. */
  lemma FourOf<T>(v: seq<T>, x: T, y: T, z: T, w: T)
    requires |v| == 4 && v[0] == x && v[1] == y && v[2] == z && v[3] == w
    ensures v == [x, y, z, w]
  {
  }

  /** `Object.values` of an indexed row lists its four cells in key order. */
  lemma IndexedRowValues(id: string, name: string, lat: string, lng: string)
    ensures ObjectValues(IndexedRow(id, name, lat, lng)) == Some([Str(id), Str(name), Str(lat), Str(lng)])
  {
    var v := ObjectValues(IndexedRow(id, name, lat, lng)).value;
    assert |v| == 4 && v[0] == Str(id) && v[1] == Str(name) && v[2] == Str(lat) && v[3] == Str(lng);
    FourOf(v, Str(id), Str(name), Str(lat), Str(lng));
  }

  /** The readings of four values are their four readings. */
  lemma FourReadings(p: Json, q: Json, r: Json, t: Json, x: Reading, y: Reading, z: Reading, w: Reading)
    requires Read(p) == x && Read(q) == y && Read(r) == z && Read(t) == w
    ensures Readings([p, q, r, t]) == [x, y, z, w]
  {
    var vs := [p, q, r, t];
    assert vs[0] == p && vs[1] == q && vs[2] == r && vs[3] == t;
    var rs := Readings(vs);
    assert |rs| == 4;
    assert rs[0] == Read(vs[0]) && rs[1] == Read(vs[1]) && rs[2] == Read(vs[2]) && rs[3] == Read(vs[3]);
    FourOf(rs, x, y, z, w);
  }

  /** How the values of an indexed row read. */
  lemma IndexedRowReadings(id: string, name: string, a: string, b: string, c: string, d: string)
    requires id != [] && AllDigits(id) && !InBand(Lat, DigitsValue(id) as real) && !InBand(Lng, DigitsValue(id) as real)
    requires name != [] && IsTrimmed(name) && ',' !in name
    requires ('a' <= name[0] <= 'z' || 'A' <= name[0] <= 'Z') && name[0] != 'I'
    requires a != [] && c != [] && AllDigits(a) && AllDigits(b) && AllDigits(c) && AllDigits(d)
    requires InBand(Lat, LiteralValue(Literal(a, b, 0))) && InBand(Lng, LiteralValue(Literal(c, d, 0)))
    ensures ObjectValues(IndexedRow(id, name, a + "," + b, c + "," + d)).Some?
    ensures Readings(ObjectValues(IndexedRow(id, name, a + "," + b, c + "," + d)).value)
         == [Ignored, Name(name), Coord(Lat, LiteralValue(Literal(a, b, 0))), Coord(Lng, LiteralValue(Literal(c, d, 0)))]
  {
    var x, y := Coord(Lat, LiteralValue(Literal(a, b, 0))), Coord(Lng, LiteralValue(Literal(c, d, 0)));
    IndexedRowValues(id, name, a + "," + b, c + "," + d);
    ReadIgnored(id);
    ReadName(name);
    ReadCoordinate(a, b, Lat);
    ReadCoordinate(c, d, Lng);
    FourReadings(Str(id), Str(name), Str(a + "," + b), Str(c + "," + d), Ignored, Name(name), x, y);
  }

  /** Readings with one name, then a latitude, then a longitude: the scan keeps all
      three. */
  lemma ScanKeepsAll(name: string, x: real, y: real, category: string)
    ensures ScanAccept([Ignored, Name(name), Coord(Lat, x), Coord(Lng, y)], category)
         == Accept(Finite(x), Finite(y), Some(Str(name)), category)
  {
    var rs := [Ignored, Name(name), Coord(Lat, x), Coord(Lng, y)];
    LastCoordinateAt(rs, Lat, 2);
    LastCoordinateAt(rs, Lng, 3);
    if name != [] {
      BestNameUnique(rs, 1);
    } else {
      assert CandidateLength(rs[1]) <= |BestName(rs)|;
    }
    assert AsNumber(LastCoordinate(rs, Lat)) == Finite(x);
    assert AsNumber(LastCoordinate(rs, Lng)) == Finite(y);
  }

  /** The scan of an indexed row: the identifier is a number outside both bands and
      is ignored, the only text is the name, and the two comma decimals fall in the
      latitude and longitude bands. The record is emitted with the name and both
      decimal values. */
  lemma IndexedRowEmitted(id: string, name: string, a: string, b: string, c: string, d: string, category: string)
    requires id != [] && AllDigits(id) && !InBand(Lat, DigitsValue(id) as real) && !InBand(Lng, DigitsValue(id) as real)
    requires name != [] && IsTrimmed(name) && NoLineBreaks(name) && ',' !in name
    requires ('a' <= name[0] <= 'z' || 'A' <= name[0] <= 'Z') && name[0] != 'I'
    requires a != [] && c != [] && AllDigits(a) && AllDigits(b) && AllDigits(c) && AllDigits(d)
    requires InBand(Lat, LiteralValue(Literal(a, b, 0))) && InBand(Lng, LiteralValue(Literal(c, d, 0)))
    ensures ScanOutcome(IndexedRow(id, name, a + "," + b, c + "," + d), category)
         == Emit(Location(name, category, Finite(LiteralValue(Literal(a, b, 0))), Finite(LiteralValue(Literal(c, d, 0)))))
  {
    var x, y := LiteralValue(Literal(a, b, 0)), LiteralValue(Literal(c, d, 0));
    IndexedRowReadings(id, name, a, b, c, d);
    ScanKeepsAll(name, x, y, category);
    ReplaceLineBreaksNone(name);
    TrimTrimmed(name);
    AcceptEmits(Finite(x), Finite(y), name, category);
  }

  /** When neither the configured name nor its first two variants exist, a source
      falls back to "lycees.json" if that exists, whatever the source is. */
  lemma FallbackToLycees(name: string, existing: set<string>)
    requires name !in existing && Alternatives(name)[0] !in existing && Alternatives(name)[1] !in existing
    requires "lycees.json" in existing
    ensures FirstExisting(Candidates(name), existing) == Some("lycees.json")
  {
    FirstExistingAt(Candidates(name), existing, 3);
  }

  /** A pilot school's name broken over two lines with CRLF is stored on one line. */
  lemma BrokenNameJoined()
    ensures CleanName("Lyc\U{E9}e\r\nPilote") == "Lyc\U{E9}e Pilote"
  {
    assert "Lyc\U{E9}e\r\nPilote" == "Lyc\U{E9}e" + "\r\n" + "Pilote";
    assert "Lyc\U{E9}e Pilote" == "Lyc\U{E9}e" + " " + "Pilote";
    CleanNameJoin("Lyc\U{E9}e", "\r\n", "Pilote");
  }

  /** A name broken over three lines, by an LF and then a CRLF, is stored with one
      space at each break. */
  lemma ThreeLinesJoined()
    ensures CleanName("Lyc\U{E9}e\nPilote\r\nTunis") == "Lyc\U{E9}e Pilote Tunis"
  {
    assert "Lyc\U{E9}e\nPilote\r\nTunis" == "Lyc\U{E9}e" + "\n" + "Pilote" + "\r\n" + "Tunis";
    assert "Lyc\U{E9}e Pilote Tunis" == "Lyc\U{E9}e" + " " + "Pilote" + " " + "Tunis";
    CleanNameThreeLines("Lyc\U{E9}e", "\n", "Pilote", "\r\n", "Tunis");
  }

  /** The file names of the post-office and ministry sources, as configured. */
  lemma ConfiguredNames()
    ensures Sources[2].name == "postes.json" && Sources[3].name == "ministere.json"
  {
  }

  /** A plural name's suffix "s.json" is found where the singular ends, when the
      singular has no '.' of its own. */
  lemma PluralSuffixAt(p: string)
    requires '.' !in p
    ensures IndexOf(p + "s.json", "s.json") == Some(|p|)
  {
    var s, q := p + "s.json", "s.json";
    forall j | 0 <= j < |p| ensures !InfixAt(q, s, j) {
      assert s[j + 1] != '.' by {
        if j + 1 < |p| {
          assert s[j + 1] == p[j + 1] && p[j + 1] in p;
        } else {
          assert s[j + 1] == 's';
        }
      }
      assert s[j..j + 6][1] == s[j + 1] && q[1] == '.';
      assert s[j..j + 6] != q;
    }
    assert s[|p|..] == q;
    IndexOfFromFirst(s, q, 0, |p|);
  }

  /** The name variants tried for "postes.json": the singular comes second. */
  lemma PostesVariants()
    ensures Alternatives("postes.json")[0] == "postes.json" && Alternatives("postes.json")[1] == "poste.json"
  {
    var s, p := "postes.json", "poste";
    assert s == p + "s.json" && '.' !in p;
    ReplaceFirstCharAbsent(s, '\U{E9}', "e");
    PluralSuffixAt(p);
    assert s[..|p|] == p && s[|p| + 6..] == [];
    assert p + ".json" + [] == "poste.json";
  }

  /** Under the configured sources, a missing "postes.json" is read from "poste.json"
      when that exists. */
  lemma PostesFallsBackToSingular(existing: set<string>)
    requires "postes.json" !in existing && "poste.json" in existing
    ensures FirstExisting(Candidates(Sources[2].name), existing) == Some("poste.json")
  {
    ConfiguredNames();
    var names := Candidates("postes.json");
    PostesVariants();
    assert names[0] == "postes.json" && names[1] == "postes.json" && names[2] == "poste.json";
    FirstExistingAt(names, existing, 2);
  }

  /** "ministere.json" does not end in "s.json". */
  lemma NoPluralSuffix()
    ensures forall j :: 0 <= j ==> !InfixAt("s.json", "ministere.json", j)
  {
    var s, p := "ministere.json", "ministere";
    assert s == p + ".json" && '.' !in p;
    forall j | 0 <= j ensures !InfixAt("s.json", s, j) {
      if j + 6 <= |s| {
        assert s[j..j + 6][0] == s[j] && s[j..j + 6][1] == s[j + 1];
        if j + 1 < |p| {
          assert s[j + 1] == p[j + 1];
        } else {
          assert j == 8 && s[8] == 'e';
        }
      }
    }
  }

  /** The name variants tried for "ministere.json": neither change applies, so the
      shared fallbacks come next. */
  lemma MinistereVariants()
    ensures Alternatives("ministere.json")[0] == "ministere.json" && Alternatives("ministere.json")[1] == "ministere.json"
  {
    ReplaceFirstCharAbsent("ministere.json", '\U{E9}', "e");
    NoPluralSuffix();
    ReplaceFirstAbsent("ministere.json", "s.json", ".json");
  }

  /** Under the configured sources, when "ministere.json" is missing but "lycees.json"
      exists, the ministry source reads the lycées file, even when
      "ministeres.json" exists: its name has no variant of its own before the shared
      fallbacks. */
  lemma MinistryFallsBackToLycees(existing: set<string>)
    requires "ministere.json" !in existing && "lycees.json" in existing
    ensures FirstExisting(Candidates(Sources[3].name), existing) == Some("lycees.json")
  {
    ConfiguredNames();
    MinistereVariants();
    FallbackToLycees("ministere.json", existing);
  }
}
