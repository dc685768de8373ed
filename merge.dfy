/** The merge script. For each configured source it resolves the file name,
    unwraps the parsed JSON into a list of items, reads latitude, longitude and
    name from each item (by fixed field names, or by scanning every value), and
    appends the accepted records, cleaned, to one output list. File access is a
    `Disk` value and the output is the returned list. */
module Merge {
  import opened Options
  import opened JsString
  import opened JsNumber
  import opened Json
  import opened Seqs

  /** How the items of a source are read: by fixed field names, or by a scan of
      every value. */
  datatype Strategy = Explicit | Scan

  datatype Source = Source(name: string, category: string, strategy: Strategy)

  /** The configured sources, in processing order. */
  const Sources: seq<Source> := [
    Source("ecole.json", "\U{C9}cole", Explicit),
    Source("lyc\U{E9}es.json", "Lyc\U{E9}e", Scan),
    Source("postes.json", "Poste", Scan),
    Source("ministere.json", "Minist\U{E8}re", Scan),
    Source("maisonsJeunes.json", "Maison des Jeunes", Scan)
  ]

  /** One output record, `{nom, categorie, lat, lng}`. */
  datatype Location = Location(nom: string, categorie: string, lat: Number, lng: Number)

  /** The files next to the script: the names that exist, and the parsed content of
      those whose text is valid JSON. An existing name that is not a key of
      `parsed` is a file on which `JSON.parse` throws. */
  datatype Disk = Disk(existing: set<string>, parsed: map<string, Json>)

  /** What the script reports for one source. */
  datatype Report =
    | NotFound          // no candidate name exists
    | ReadError         // JSON.parse or a later step threw; the source's remaining items are lost
    | Added(count: nat) // the source was read to the end and `count` records were appended

  /** What one item does: it is appended, skipped, or it makes the script throw. */
  datatype Outcome = Emit(loc: Location) | Skip | Fail

  // ---------------------------------------------------------------------------
  // File name resolution

  /** The fallback names tried when the configured one does not exist. The last two
      are the same for every source. */
  function Alternatives(name: string): (r: seq<string>)
    ensures |r| == 4 && r[2] == "lycees.json" && r[3] == "ministeres.json"
    ensures IndexOf(name, "\U{E9}").None? ==> r[0] == name
    ensures IndexOf(name, "s.json").None? ==> r[1] == name
    ensures IndexOf(name, "s.json").Some? ==> |r[1]| == |name| - 1
  {
    [ReplaceFirst(name, "\U{E9}", "e"), ReplaceFirst(name, "s.json", ".json"), "lycees.json", "ministeres.json"]
  }

  /** Every name tried, in order. */
  function Candidates(name: string): (r: seq<string>)
    ensures |r| == 5 && r[0] == name && r[1..] == Alternatives(name)
  {
    [name] + Alternatives(name)
  }

  /** The first of `names` that exists. */
  function FirstExisting(names: seq<string>, existing: set<string>): (r: Option<string>)
    ensures r.None? <==> forall i :: 0 <= i < |names| ==> names[i] !in existing
    ensures r.Some? ==> r.value in names && r.value in existing
  {
    if names == [] then None
    else if names[0] in existing then Some(names[0])
    else FirstExisting(names[1..], existing)
  }

  /** The first existing name is determined by where it sits: whatever name sits at
      the first existing position is the result. */
  lemma {:induction false} FirstExistingAt(names: seq<string>, existing: set<string>, i: nat)
    requires i < |names| && names[i] in existing
    requires forall j :: 0 <= j < i ==> names[j] !in existing
    ensures FirstExisting(names, existing) == Some(names[i])
  {
    if i > 0 {
      assert names[0] !in existing;
      FirstExistingAt(names[1..], existing, i - 1);
    }
  }

  /** The name used for a source: the configured name if it exists, else the first
      existing alternative; `None` when nothing exists. */
  method ResolvePath(name: string, existing: set<string>) returns (path: Option<string>)
    ensures path == FirstExisting(Candidates(name), existing)
  {
    var filePath := name;
    if filePath !in existing {
      var alts := Alternatives(name);
      var i := 0;
      while i < |alts|
        invariant 0 <= i <= |alts|
        invariant filePath == name
        invariant forall j :: 0 <= j < i ==> alts[j] !in existing
      {
        if alts[i] in existing {
          filePath := alts[i];
          FirstExistingAt(Candidates(name), existing, i + 1);
          break;
        }
        i := i + 1;
      }
    } else {
      FirstExistingAt(Candidates(name), existing, 0);
    }
    path := if filePath in existing then Some(filePath) else None;
  }

  // ---------------------------------------------------------------------------
  // Unwrapping the parsed file

  /** `.forEach` exists only on arrays: any other value makes the call throw. */
  function AsArray(v: Json): (r: Option<seq<Json>>)
    ensures r.Some? <==> v.Arr?
    ensures v.Arr? ==> r == Some(v.elems)
  {
    if v.Arr? then Some(v.elems) else None
  }

  /** The items of a parsed file: the array itself, else the truthy `data` property,
      else the truthy `results` property, else the object's values. `None` when
      this throws: on `null`, or when the chosen property is not an array. */
  function Unwrap(data: Json): (items: Option<seq<Json>>)
    ensures data.Arr? ==> items == Some(data.elems)
    ensures data.Null? ==> items.None?
    ensures data.Obj? && TruthyRead(Field(data.fields, "data")) ==>
      items == AsArray(Field(data.fields, "data").value)
    ensures data.Obj? && !TruthyRead(Field(data.fields, "data")) && TruthyRead(Field(data.fields, "results")) ==>
      items == AsArray(Field(data.fields, "results").value)
    ensures data.Obj? && !TruthyRead(Field(data.fields, "data")) && !TruthyRead(Field(data.fields, "results")) ==>
      items == ObjectValues(data)
    ensures !data.Obj? && !data.Arr? ==> items == ObjectValues(data)
  {
    if data.Arr? then Some(data.elems)
    else if data.Null? then None
    else
      var inner := Or(Get(data, "data"), Get(data, "results"));
      if TruthyRead(inner) then AsArray(inner.value) else ObjectValues(data)
  }

  /** Whatever other properties an object has, a list under `data` comes back out;
      so does a list under `results` when `data` is missing or falsy; a truthy
      `data` that is not a list throws, even when `results` holds one. */
  lemma UnwrapWrapped(items: seq<Json>, fields: seq<(string, Json)>)
    ensures Field(fields, "data") == Some(Arr(items)) ==> Unwrap(Obj(fields)) == Some(items)
    ensures !TruthyRead(Field(fields, "data")) && Field(fields, "results") == Some(Arr(items)) ==>
      Unwrap(Obj(fields)) == Some(items)
    ensures TruthyRead(Field(fields, "data")) && !Field(fields, "data").value.Arr? ==> Unwrap(Obj(fields)).None?
  {
  }

  // ---------------------------------------------------------------------------
  // Acceptance and name cleaning

  /** The emitted name: each CRLF, LF or CR becomes a space, then the ends are trimmed. */
  function CleanName(s: string): (r: string)
    ensures NoLineBreaks(r) && IsTrimmed(r)
  {
    var t := ReplaceLineBreaks(s);
    var r := Trim(t);
    InfixNoLineBreaks(r, t, |t| - |TrimStart(t)|);
    r
  }

  /** A name that is already trimmed and not empty stays non-empty once cleaned. */
  lemma CleanNameNonEmpty(s: string)
    requires s != [] && IsTrimmed(s)
    ensures CleanName(s) != []
  {
    var t := ReplaceLineBreaks(s);
    assert !IsLineBreak(s[0]);
    assert t[0] == s[0] && !IsWhitespace(t[0]);
    assert !AllWhitespace(t);
  }

  /** A name broken over two lines, each piece already trimmed, is stored as the two
      pieces joined by one space. */
  lemma CleanNameJoin(a: string, sep: string, b: string)
    requires a != [] && b != [] && IsTrimmed(a) && IsTrimmed(b) && NoLineBreaks(a) && NoLineBreaks(b)
    requires sep == "\r\n" || sep == "\n" || sep == "\r"
    ensures CleanName(a + sep + b) == a + " " + b
  {
    ReplaceLineBreaksJoin(a, sep, b);
    var t := a + " " + b;
    assert t[0] == a[0] && t[|t| - 1] == b[|b| - 1];
    TrimTrimmed(t);
  }

  /** Each break of a name, wherever it is, becomes one space before the ends are
      trimmed: cleaning `a + sep + t` cleans the text with that break replaced and
      the rest of the breaks in `t` replaced in turn. */
  lemma CleanNameBreak(a: string, sep: string, t: string)
    requires NoLineBreaks(a)
    requires sep == "\r\n" || sep == "\n" || sep == "\r"
    requires sep == "\r" && t != [] ==> t[0] != '\n'
    ensures CleanName(a + sep + t) == Trim(a + " " + ReplaceLineBreaks(t))
  {
    ReplaceLineBreaksBreak(a, sep, t);
  }

  /** A name broken over three lines, each already trimmed, is stored as the three
      lines joined by single spaces: the second break is replaced as well as the
      first. */
  lemma CleanNameThreeLines(a: string, sep1: string, b: string, sep2: string, c: string)
    requires a != [] && b != [] && c != [] && IsTrimmed(a) && IsTrimmed(b) && IsTrimmed(c)
    requires NoLineBreaks(a) && NoLineBreaks(b) && NoLineBreaks(c)
    requires sep1 == "\r\n" || sep1 == "\n" || sep1 == "\r"
    requires sep2 == "\r\n" || sep2 == "\n" || sep2 == "\r"
    ensures CleanName(a + sep1 + b + sep2 + c) == a + " " + b + " " + c
  {
    ReplaceLineBreaksTwo(a, sep1, b, sep2, c);
    var r := a + " " + b + " " + c;
    assert r[0] == a[0] && r[|r| - 1] == c[|c| - 1];
    TrimTrimmed(r);
  }

  /** An accepted record: truthy coordinates, and a name with no line break and no
      whitespace at either end. */
  predicate WellFormed(l: Location) {
    TruthyNumber(l.lat) && TruthyNumber(l.lng) && IsTrimmed(l.nom) && NoLineBreaks(l.nom)
  }

  /** The final test: appended only when `lat`, `lng` and `nom` are all truthy, and
      `nom.replace` throws when `nom` is not a string. A coordinate that was never
      set (`null`) is passed as NaN: both are falsy and nothing else reads it. */
  function Accept(lat: Number, lng: Number, nom: Option<Json>, category: string): (o: Outcome)
    ensures o.Emit? ==> WellFormed(o.loc) && o.loc.categorie == category && o.loc.lat == lat && o.loc.lng == lng
    ensures o.Emit? ==> nom.Some? && nom.value.Str? && o.loc.nom == CleanName(nom.value.s)
    ensures o.Skip? <==> !(TruthyNumber(lat) && TruthyNumber(lng) && TruthyRead(nom))
  {
    if TruthyNumber(lat) && TruthyNumber(lng) && TruthyRead(nom) then
      if nom.value.Str? then Emit(Location(CleanName(nom.value.s), category, lat, lng)) else Fail
    else Skip
  }

  // ---------------------------------------------------------------------------
  // Explicit strategy

  /** `String(v || '')` on a property read. */
  function TextOrEmpty(v: Option<Json>): (r: string)
    ensures !TruthyRead(v) ==> r == ""
    ensures v.Some? && v.value.Str? ==> r == v.value.s
  {
    if TruthyRead(v) then ToText(v.value) else ""
  }

  /** The text of a coordinate field with its first ',' turned into '.'. */
  function RawCoordinate(item: Json, key: string): (r: string)
    requires !item.Null?
    ensures |r| == |TextOrEmpty(Get(item, key))|
    ensures Get(item, key).None? ==> r == ""
    ensures ',' !in TextOrEmpty(Get(item, key)) ==> r == TextOrEmpty(Get(item, key))
  {
    var t := TextOrEmpty(Get(item, key));
    if ',' !in t then
      ReplaceFirstNoComma(t);
      ReplaceFirst(t, ",", ".")
    else
      ReplaceFirst(t, ",", ".")
  }

  /** An item read by field names: coordinates only when both coordinate fields give
      non-empty text (the first ',' of each becomes '.'); the name is
      `nom_etablissement`, or `nom_etablissement_ar` when that is falsy. */
  function ExplicitOutcome(item: Json, category: string): (o: Outcome)
    ensures OutcomeOk(o, category)
  {
    if item.Null? then Fail
    else
      var rawLat := RawCoordinate(item, "Latitude initiale");
      var rawLng := RawCoordinate(item, "Longitude initiale");
      if rawLat != [] && rawLng != [] then
        Accept(ParseFloat(rawLat), ParseFloat(rawLng),
               Or(Get(item, "nom_etablissement"), Get(item, "nom_etablissement_ar")), category)
      else Skip
  }

  /** A null item throws; an item whose latitude or longitude field is missing,
      falsy or prints as "" is skipped, whatever its name. */
  lemma ExplicitSkips(item: Json, category: string)
    ensures item.Null? ==> ExplicitOutcome(item, category) == Fail
    ensures !item.Null? && (TextOrEmpty(Get(item, "Latitude initiale")) == [] || TextOrEmpty(Get(item, "Longitude initiale")) == [])
      ==> ExplicitOutcome(item, category) == Skip
  {
    assert IndexOfFrom("", ",", 0).None?;
  }

  /** A school row is decided by its two parsed coordinates and its name fields:
      with both coordinates truthy, a non-empty `nom_etablissement` gives the name,
      and only when that is missing or falsy does `nom_etablissement_ar`; a truthy
      name that is not a string throws; otherwise the row is skipped. */
  lemma ExplicitRow(item: Json, category: string, n: string)
    requires !item.Null?
    ensures var lat, lng := ParseFloat(RawCoordinate(item, "Latitude initiale")), ParseFloat(RawCoordinate(item, "Longitude initiale"));
      TruthyNumber(lat) && TruthyNumber(lng) && Get(item, "nom_etablissement") == Some(Str(n)) && n != [] ==>
        ExplicitOutcome(item, category) == Emit(Location(CleanName(n), category, lat, lng))
    ensures var lat, lng := ParseFloat(RawCoordinate(item, "Latitude initiale")), ParseFloat(RawCoordinate(item, "Longitude initiale"));
      TruthyNumber(lat) && TruthyNumber(lng) && !TruthyRead(Get(item, "nom_etablissement"))
      && Get(item, "nom_etablissement_ar") == Some(Str(n)) && n != [] ==>
        ExplicitOutcome(item, category) == Emit(Location(CleanName(n), category, lat, lng))
    ensures var lat, lng := ParseFloat(RawCoordinate(item, "Latitude initiale")), ParseFloat(RawCoordinate(item, "Longitude initiale"));
      TruthyNumber(lat) && TruthyNumber(lng) && TruthyRead(Get(item, "nom_etablissement"))
      && !Get(item, "nom_etablissement").value.Str? ==>
        ExplicitOutcome(item, category) == Fail
    ensures var lat, lng := ParseFloat(RawCoordinate(item, "Latitude initiale")), ParseFloat(RawCoordinate(item, "Longitude initiale"));
      !TruthyNumber(lat) || !TruthyNumber(lng)
      || (!TruthyRead(Get(item, "nom_etablissement")) && !TruthyRead(Get(item, "nom_etablissement_ar"))) ==>
        ExplicitOutcome(item, category) == Skip
  {
    ExplicitAccept(item, category);
    AcceptNamed(ParseFloat(RawCoordinate(item, "Latitude initiale")), ParseFloat(RawCoordinate(item, "Longitude initiale")),
                Get(item, "nom_etablissement"), Get(item, "nom_etablissement_ar"), category, n);
  }

  /** The final test on `a || b` as the name. */
  lemma AcceptNamed(lat: Number, lng: Number, a: Option<Json>, b: Option<Json>, category: string, n: string)
    ensures TruthyNumber(lat) && TruthyNumber(lng) && a == Some(Str(n)) && n != [] ==>
      Accept(lat, lng, Or(a, b), category) == Emit(Location(CleanName(n), category, lat, lng))
    ensures TruthyNumber(lat) && TruthyNumber(lng) && !TruthyRead(a) && b == Some(Str(n)) && n != [] ==>
      Accept(lat, lng, Or(a, b), category) == Emit(Location(CleanName(n), category, lat, lng))
    ensures TruthyNumber(lat) && TruthyNumber(lng) && TruthyRead(a) && !a.value.Str? ==>
      Accept(lat, lng, Or(a, b), category) == Fail
    ensures !TruthyNumber(lat) || !TruthyNumber(lng) || (!TruthyRead(a) && !TruthyRead(b)) ==>
      Accept(lat, lng, Or(a, b), category) == Skip
  {
  }

  /** The emptiness test on the coordinate texts decides nothing by itself: an empty
      text parses as NaN, which the final test rejects anyway. */
  lemma ExplicitAccept(item: Json, category: string)
    requires !item.Null?
    ensures ExplicitOutcome(item, category)
         == Accept(ParseFloat(RawCoordinate(item, "Latitude initiale")), ParseFloat(RawCoordinate(item, "Longitude initiale")),
                   Or(Get(item, "nom_etablissement"), Get(item, "nom_etablissement_ar")), category)
  {
    var rawLat, rawLng := RawCoordinate(item, "Latitude initiale"), RawCoordinate(item, "Longitude initiale");
    assert rawLat == [] ==> ParseFloat(rawLat).NaN?;
    assert rawLng == [] ==> ParseFloat(rawLng).NaN?;
  }

  // ---------------------------------------------------------------------------
  // Scan strategy

  datatype Axis = Lat | Lng

  const LatMin: real := 30.0
  const LatMax: real := 38.0
  const LngMin: real := 7.0
  const LngMax: real := 13.0

  /** The number a scanned value reads as: its text, trimmed, with the first ','
      turned into '.', through `parseFloat`. */
  function ScanNumber(v: Json): (r: Number)
    ensures v.Null? || v.Bool? || v.Obj? ==> r.NaN?
  {
    if v.Null? || v.Bool? || v.Obj? then
      WordNotANumber(ToText(v));
      ParseFloat(ReplaceFirst(Trim(ToText(v)), ",", "."))
    else
      ParseFloat(ReplaceFirst(Trim(ToText(v)), ",", "."))
  }

  /** The words `String` gives for null, the booleans and objects do not read as
      numbers. */
  lemma WordNotANumber(w: string)
    requires w == "null" || w == "true" || w == "false" || w == "[object Object]"
    ensures ParseFloat(ReplaceFirst(Trim(w), ",", ".")).NaN?
  {
    if w == "null" {
      assert w[0] == 'n' && w[3] == 'l' && ',' !in w;
      PlainWordNotANumber(w);
    } else if w == "true" {
      assert w[0] == 't' && w[3] == 'e' && ',' !in w;
      PlainWordNotANumber(w);
    } else if w == "false" {
      assert w[0] == 'f' && w[4] == 'e' && ',' !in w;
      PlainWordNotANumber(w);
    } else {
      assert w[0] == '[' && w[14] == ']' && ',' !in w;
      PlainWordNotANumber(w);
    }
  }

  /** A comma-free text with no whitespace at its ends whose first character cannot
      start a number does not read as one. */
  lemma PlainWordNotANumber(w: string)
    requires w != [] && IsTrimmed(w) && ',' !in w && !IsDigit(w[0])
    requires w[0] != '+' && w[0] != '-' && w[0] != '.' && w[0] != 'I'
    ensures ParseFloat(ReplaceFirst(Trim(w), ",", ".")).NaN?
  {
    TrimTrimmed(w);
    ReplaceFirstNoComma(w);
    NotANumber(w);
  }

  /** `x` lies strictly inside the band of `axis`. */
  predicate InBand(axis: Axis, x: real) {
    match axis
    case Lat => LatMin < x < LatMax
    case Lng => LngMin < x < LngMax
  }

  /** What the scan makes of one value. */
  datatype Reading =
    | Ignored                         // falsy, or a number outside both bands
    | Coord(axis: Axis, value: real)  // a number inside the band of `axis`
    | Name(text: string)              // not a number: a name candidate

  /** The reading of one value: a truthy value whose number lies strictly inside the
      latitude band is a latitude; otherwise, strictly inside the longitude band, a
      longitude; a value that does not parse as a number offers its trimmed text as
      a name. The bands are disjoint, so no value is both. */
  function Read(v: Json): (r: Reading)
    ensures r.Coord? ==> InBand(r.axis, r.value)
    ensures r.Name? ==> IsTrimmed(r.text)
  {
    if !Truthy(v) then Ignored
    else
      var text := Trim(ToText(v));
      var num := ParseFloat(ReplaceFirst(text, ",", "."));
      if num.NaN? then Name(text)
      else if Between(num, LatMin, LatMax) then Coord(Lat, num.value)
      else if Between(num, LngMin, LngMax) then Coord(Lng, num.value)
      else Ignored
  }

  /** The scan's rules for one value, in both directions: a latitude exactly when it
      is truthy and reads as a number strictly inside (30, 38); a longitude exactly
      when it reads strictly inside (7, 13) and is not a latitude; a name exactly
      when it is truthy and does not read as a number, so a number outside both
      bands is neither. */
  lemma ReadRules(v: Json)
    ensures (Read(v).Coord? && Read(v).axis == Lat) <==> Truthy(v) && Between(ScanNumber(v), LatMin, LatMax)
    ensures (Read(v).Coord? && Read(v).axis == Lng) <==>
      Truthy(v) && !Between(ScanNumber(v), LatMin, LatMax) && Between(ScanNumber(v), LngMin, LngMax)
    ensures Read(v).Coord? ==> ScanNumber(v) == Finite(Read(v).value)
    ensures Read(v).Name? <==> Truthy(v) && ScanNumber(v).NaN?
    ensures Read(v).Name? ==> Read(v).text == Trim(ToText(v))
    ensures !Truthy(v) ==> Read(v) == Ignored
  {
  }

  /** Every coordinate read lies in its band and every name read is trimmed. */
  predicate Banded(rs: seq<Reading>) {
    forall r :: r in rs ==> (r.Coord? ==> InBand(r.axis, r.value)) && (r.Name? ==> IsTrimmed(r.text))
  }

  /** The readings of a list of values, in order. */
  function Readings(vs: seq<Json>): (rs: seq<Reading>)
    ensures |rs| == |vs| && forall i :: 0 <= i < |vs| ==> rs[i] == Read(vs[i])
    ensures Banded(rs)
  {
    seq(|vs|, i requires 0 <= i < |vs| => Read(vs[i]))
  }

  /** The reading gives a coordinate on `axis`. */
  predicate IsOn(r: Reading, axis: Axis) {
    r.Coord? && r.axis == axis
  }

  /** The coordinate of the last reading on `axis`: a later value in the same band
      overwrites an earlier one. */
  function LastCoordinate(rs: seq<Reading>, axis: Axis): (c: Option<real>)
    ensures c.None? <==> forall i :: 0 <= i < |rs| ==> !IsOn(rs[i], axis)
    ensures c.Some? ==> Coord(axis, c.value) in rs
  {
    if rs == [] then None
    else
      var prefix := rs[..|rs| - 1];
      assert forall i :: 0 <= i < |prefix| ==> prefix[i] == rs[i];
      assert forall r :: r in prefix ==> r in rs;
      var last := rs[|rs| - 1];
      if IsOn(last, axis) then Some(last.value) else LastCoordinate(prefix, axis)
  }

  /** Last value wins: the coordinate kept is the one of the last reading on `axis`. */
  lemma {:induction false} LastCoordinateAt(rs: seq<Reading>, axis: Axis, i: nat)
    requires i < |rs| && IsOn(rs[i], axis)
    requires forall j :: i < j < |rs| ==> !IsOn(rs[j], axis)
    ensures LastCoordinate(rs, axis) == Some(rs[i].value)
  {
    if i < |rs| - 1 {
      var prefix := rs[..|rs| - 1];
      assert !IsOn(rs[|rs| - 1], axis);
      assert prefix[i] == rs[i];
      LastCoordinateAt(prefix, axis, i);
    }
  }

  /** The length of the name a reading offers, or -1 when it offers none. */
  function CandidateLength(r: Reading): int {
    if r.Name? then |r.text| else -1
  }

  /** The longest name candidate; among equally long ones the first seen (a later
      one replaces the current best only when strictly longer). */
  function BestName(rs: seq<Reading>): (r: string)
    ensures forall i :: 0 <= i < |rs| ==> CandidateLength(rs[i]) <= |r|
    ensures r != [] ==> Name(r) in rs
  {
    if rs == [] then ""
    else
      var prefix := rs[..|rs| - 1];
      var best := BestName(prefix);
      assert forall i :: 0 <= i < |prefix| ==> prefix[i] == rs[i];
      assert forall r :: r in prefix ==> r in rs;
      var last := rs[|rs| - 1];
      if last.Name? && |last.text| > |best| then last.text else best
  }

  /** Among equally long candidates the first seen wins: every candidate before the
      one picked is strictly shorter. */
  lemma {:induction false} BestNameFirst(rs: seq<Reading>)
    requires BestName(rs) != []
    ensures exists i :: 0 <= i < |rs| && rs[i] == Name(BestName(rs))
                          && forall j :: 0 <= j < i ==> CandidateLength(rs[j]) < |BestName(rs)|
  {
    var prefix := rs[..|rs| - 1];
    var last := rs[|rs| - 1];
    assert forall i :: 0 <= i < |prefix| ==> prefix[i] == rs[i];
    if last.Name? && |last.text| > |BestName(prefix)| {
      assert forall j :: 0 <= j < |prefix| ==> CandidateLength(rs[j]) <= |BestName(prefix)|;
    } else {
      BestNameFirst(prefix);
    }
  }

  /** The name picked does not depend on the order of the other candidates when one
      candidate is strictly longer than every other: that one is picked. */
  lemma BestNameUnique(rs: seq<Reading>, i: nat)
    requires i < |rs| && rs[i].Name? && rs[i].text != []
    requires forall j :: 0 <= j < |rs| && j != i ==> CandidateLength(rs[j]) < CandidateLength(rs[i])
    ensures BestName(rs) == rs[i].text
  {
    var r := BestName(rs);
    assert CandidateLength(rs[i]) <= |r|;
  }

  /** A number in a coordinate that was found; NaN (falsy) when none was. */
  function AsNumber(c: Option<real>): (n: Number)
    ensures c.Some? <==> n.Finite?
    ensures c.Some? ==> n.value == c.value
    ensures c.None? ==> n == NaN
  {
    if c.Some? then Finite(c.value) else NaN
  }

  /** The result of scanning some readings, through the final test. */
  function ScanAccept(rs: seq<Reading>, category: string): (o: Outcome)
    ensures OutcomeOk(o, category) && !o.Fail?
  {
    var lat := LastCoordinate(rs, Lat);
    var lng := LastCoordinate(rs, Lng);
    var name := BestName(rs);
    Accept(AsNumber(lat), AsNumber(lng), Some(Str(name)), category)
  }

  /** A coordinate kept from banded readings lies in its band. */
  lemma BandedCoordinate(rs: seq<Reading>, axis: Axis)
    requires Banded(rs)
    ensures LastCoordinate(rs, axis).Some? ==> InBand(axis, LastCoordinate(rs, axis).value)
  {
    var c := LastCoordinate(rs, axis);
    if c.Some? {
      assert Coord(axis, c.value) in rs;
    }
  }

  /** A name kept from banded readings is trimmed. */
  lemma BandedName(rs: seq<Reading>)
    requires Banded(rs)
    ensures BestName(rs) != [] ==> IsTrimmed(BestName(rs))
  {
    var name := BestName(rs);
    if name != [] {
      assert Name(name) in rs;
    }
  }

  /** A record kept by the scan has a latitude strictly inside (30, 38), a longitude
      strictly inside (7, 13) and a non-empty name. */
  lemma ScanAcceptEmits(rs: seq<Reading>, category: string)
    requires Banded(rs) && ScanAccept(rs, category).Emit?
    ensures Between(ScanAccept(rs, category).loc.lat, LatMin, LatMax)
    ensures Between(ScanAccept(rs, category).loc.lng, LngMin, LngMax)
    ensures ScanAccept(rs, category).loc.nom != []
  {
    var lat, lng, name := LastCoordinate(rs, Lat), LastCoordinate(rs, Lng), BestName(rs);
    BandedCoordinate(rs, Lat);
    BandedCoordinate(rs, Lng);
    BandedName(rs);
    var o := ScanAccept(rs, category);
    assert o == Accept(AsNumber(lat), AsNumber(lng), Some(Str(name)), category);
    assert name != [];
    CleanNameNonEmpty(name);
  }

  /** An item read by scanning its values (`Object.values` throws on `null`). */
  function ScanOutcome(item: Json, category: string): (o: Outcome)
    ensures OutcomeOk(o, category)
    ensures o.Fail? <==> item.Null?
  {
    match ObjectValues(item)
    case None => Fail
    case Some(vs) => ScanAccept(Readings(vs), category)
  }

  /** A record found by scanning lies inside both bands and always has a name
      (unlike one read by field names, whose name may clean to ""). */
  lemma ScanEmits(item: Json, category: string)
    requires ScanOutcome(item, category).Emit?
    ensures Between(ScanOutcome(item, category).loc.lat, LatMin, LatMax)
    ensures Between(ScanOutcome(item, category).loc.lng, LngMin, LngMax)
    ensures ScanOutcome(item, category).loc.nom != []
  {
    ScanAcceptEmits(Readings(ObjectValues(item).value), category);
  }

  lemma LastCoordinateSnoc(rs: seq<Reading>, r: Reading, axis: Axis)
    ensures LastCoordinate(rs + [r], axis) == if IsOn(r, axis) then Some(r.value) else LastCoordinate(rs, axis)
  {
    assert (rs + [r])[..|rs|] == rs;
  }

  lemma BestNameSnoc(rs: seq<Reading>, r: Reading)
    ensures BestName(rs + [r]) == if r.Name? && |r.text| > |BestName(rs)| then r.text else BestName(rs)
  {
    assert (rs + [r])[..|rs|] == rs;
  }

  /** One value of the scan: a coordinate overwrites the one of its axis, and a
      name candidate replaces the best so far only when strictly longer. */
  method ScanStep(reading: Reading, ghost done: seq<Reading>, lat: Option<real>, lng: Option<real>, potentialName: string)
    returns (lat': Option<real>, lng': Option<real>, potentialName': string)
    requires lat == LastCoordinate(done, Lat) && lng == LastCoordinate(done, Lng)
    requires potentialName == BestName(done)
    ensures lat' == LastCoordinate(done + [reading], Lat) && lng' == LastCoordinate(done + [reading], Lng)
    ensures potentialName' == BestName(done + [reading])
  {
    LastCoordinateSnoc(done, reading, Lat);
    LastCoordinateSnoc(done, reading, Lng);
    BestNameSnoc(done, reading);
    lat', lng', potentialName' := lat, lng, potentialName;
    match reading {
      case Ignored =>
      case Coord(axis, x) =>
        if axis == Lat {
          lat' := Some(x);
        } else {
          lng' := Some(x);
        }
      case Name(valStr) =>
        if |valStr| > |potentialName| {
          potentialName' := valStr;
        }
    }
  }

  /** The scan as the script runs it: one pass over the values, where a later
      coordinate in a band overwrites an earlier one and a name candidate replaces
      the best so far only when strictly longer. */
  method ScanValues(values: seq<Json>) returns (lat: Option<real>, lng: Option<real>, potentialName: string)
    ensures lat == LastCoordinate(Readings(values), Lat) && lng == LastCoordinate(Readings(values), Lng)
    ensures potentialName == BestName(Readings(values))
  {
    ghost var rs := Readings(values);
    lat, lng, potentialName := None, None, "";
    for i := 0 to |values|
      invariant lat == LastCoordinate(rs[..i], Lat)
      invariant lng == LastCoordinate(rs[..i], Lng)
      invariant potentialName == BestName(rs[..i])
    {
      var reading := Read(values[i]);
      TakeSnoc(rs, i);
      assert rs[i] == reading;
      lat, lng, potentialName := ScanStep(reading, rs[..i], lat, lng, potentialName);
    }
    assert rs[..|values|] == rs;
  }

  // ---------------------------------------------------------------------------
  // Items, sources and the whole run

  /** An outcome that emits a well-formed record of the given category, or none. */
  predicate OutcomeOk(o: Outcome, category: string) {
    o.Emit? ==> WellFormed(o.loc) && o.loc.categorie == category
  }

  /** What one item of a source does. Every record emitted is well formed and
      carries the source's category. */
  function ItemOutcome(item: Json, source: Source): (o: Outcome)
    ensures OutcomeOk(o, source.category)
  {
    match source.strategy
    case Explicit => ExplicitOutcome(item, source.category)
    case Scan => ScanOutcome(item, source.category)
  }

  /** One item, as the loop body runs it. */
  method ClassifyItem(item: Json, source: Source) returns (outcome: Outcome)
    ensures outcome == ItemOutcome(item, source)
  {
    var nom: Option<Json> := None;
    var lat: Number := NaN;
    var lng: Number := NaN;
    if item.Null? {
      return Fail;
    }
    match source.strategy {
      case Explicit =>
        var rawLat := ReplaceFirst(TextOrEmpty(Get(item, "Latitude initiale")), ",", ".");
        var rawLng := ReplaceFirst(TextOrEmpty(Get(item, "Longitude initiale")), ",", ".");
        if rawLat != [] && rawLng != [] {
          lat := ParseFloat(rawLat);
          lng := ParseFloat(rawLng);
          nom := Or(Get(item, "nom_etablissement"), Get(item, "nom_etablissement_ar"));
        }
      case Scan =>
        var values := ObjectValues(item).value;
        var foundLat, foundLng, potentialName := ScanValues(values);
        lat, lng := AsNumber(foundLat), AsNumber(foundLng);
        nom := Some(Str(potentialName));
    }
    outcome := Accept(lat, lng, nom, source.category);
  }

  /** The outcomes of a list of items, in order. */
  function Outcomes(items: seq<Json>, source: Source): (os: seq<Outcome>)
    ensures |os| == |items|
  {
    if items == [] then []
    else Outcomes(items[..|items| - 1], source) + [ItemOutcome(items[|items| - 1], source)]
  }

  /** The outcome at each position is that of the item there. */
  lemma {:induction false} OutcomesAt(items: seq<Json>, source: Source, i: nat)
    requires i < |items|
    ensures Outcomes(items, source)[i] == ItemOutcome(items[i], source)
  {
    if i < |items| - 1 {
      OutcomesAt(items[..|items| - 1], source, i);
    }
  }

  /** Every outcome of a source emits only well-formed records of its category. */
  lemma OutcomesOk(items: seq<Json>, source: Source)
    ensures forall i :: 0 <= i < |items| ==> OutcomeOk(Outcomes(items, source)[i], source.category)
  {
    forall i | 0 <= i < |items|
      ensures OutcomeOk(Outcomes(items, source)[i], source.category)
    {
      OutcomesAt(items, source, i);
    }
  }

  /** The records appended for a list of outcomes, and whether one threw (which ends
      the list: the records appended before it stay). */
  function Collect(os: seq<Outcome>): (r: (seq<Location>, bool))
    ensures |r.0| <= |os|
    ensures !r.1 ==> forall i :: 0 <= i < |os| ==> !os[i].Fail?
  {
    if os == [] then ([], false)
    else
      var prefix := Collect(os[..|os| - 1]);
      assert forall i :: 0 <= i < |os| - 1 ==> os[..|os| - 1][i] == os[i];
      if prefix.1 then prefix
      else
        match os[|os| - 1]
        case Fail => (prefix.0, true)
        case Skip => prefix
        case Emit(l) => (prefix.0 + [l], false)
  }

  /** Every record collected comes from an emitting outcome: well formed and of the
      category when every outcome is. */
  lemma {:induction false} CollectOk(os: seq<Outcome>, category: string)
    requires forall i :: 0 <= i < |os| ==> OutcomeOk(os[i], category)
    ensures forall l :: l in Collect(os).0 ==> WellFormed(l) && l.categorie == category
  {
    if os != [] {
      var prefix := os[..|os| - 1];
      assert forall i :: 0 <= i < |prefix| ==> prefix[i] == os[i];
      CollectOk(prefix, category);
    }
  }

  /** One more outcome, before anything has thrown: an emitted record is appended,
      a skip changes nothing, a throw stops the list. */
  lemma CollectStep(os: seq<Outcome>, o: Outcome)
    requires !Collect(os).1
    ensures Collect(os + [o]) == match o
      case Fail => (Collect(os).0, true)
      case Skip => Collect(os)
      case Emit(l) => (Collect(os).0 + [l], false)
  {
    assert (os + [o])[..|os|] == os;
  }

  /** Once an outcome has thrown, later outcomes change nothing. */
  lemma {:induction false} CollectStops(os: seq<Outcome>, k: nat)
    requires k <= |os| && Collect(os[..k]).1
    ensures Collect(os) == Collect(os[..k])
    decreases |os| - k
  {
    if k < |os| {
      assert os[..|os| - 1][..k] == os[..k];
      CollectStops(os[..|os| - 1], k);
    } else {
      assert os[..k] == os;
    }
  }

  /** The records appended for a list of items, and whether an item threw. */
  function ItemsOutput(items: seq<Json>, source: Source): (r: (seq<Location>, bool))
    ensures forall l :: l in r.0 ==> WellFormed(l) && l.categorie == source.category
    ensures |r.0| <= |items|
  {
    var os := Outcomes(items, source);
    OutcomesOk(items, source);
    CollectOk(os, source.category);
    Collect(os)
  }

  /** Everything one source contributes, and its report. */
  function SourceOutput(source: Source, disk: Disk): (r: (seq<Location>, Report))
    ensures r.1.NotFound? <==> forall i :: 0 <= i < |Candidates(source.name)| ==> Candidates(source.name)[i] !in disk.existing
    ensures r.1.Added? ==> r.1.count == |r.0|
    ensures r.1.NotFound? ==> r.0 == []
    ensures forall l :: l in r.0 ==> WellFormed(l) && l.categorie == source.category
    ensures FirstExisting(Candidates(source.name), disk.existing).Some? ==>
      var path := FirstExisting(Candidates(source.name), disk.existing).value;
      (path !in disk.parsed || Unwrap(disk.parsed[path]).None?) ==> r == ([], ReadError)
    ensures FirstExisting(Candidates(source.name), disk.existing).Some? ==>
      var path := FirstExisting(Candidates(source.name), disk.existing).value;
      path in disk.parsed && Unwrap(disk.parsed[path]).Some? ==>
        r.0 == ItemsOutput(Unwrap(disk.parsed[path]).value, source).0
        && (r.1.ReadError? <==> ItemsOutput(Unwrap(disk.parsed[path]).value, source).1)
  {
    match FirstExisting(Candidates(source.name), disk.existing)
    case None => ([], NotFound)
    case Some(path) =>
      if path !in disk.parsed then ([], ReadError)
      else
        match Unwrap(disk.parsed[path])
        case None => ([], ReadError)
        case Some(items) =>
          var (locations, threw) := ItemsOutput(items, source);
          (locations, if threw then ReadError else Added(|locations|))
  }

  /** What one source contributes to the output list. */
  function Contribution(disk: Disk): Source -> seq<Location> {
    source => SourceOutput(source, disk).0
  }

  /** The output list after the given sources, in source order then item order. */
  function MergeAll(sources: seq<Source>, disk: Disk): (r: seq<Location>)
    ensures sources == [] ==> r == []
  {
    Concat(Contribution(disk), sources)
  }

  /** A run over one source outputs exactly that source's records. */
  lemma MergeAllSingle(s: Source, disk: Disk)
    ensures MergeAll([s], disk) == SourceOutput(s, disk).0
  {
    ConcatSnoc(Contribution(disk), [], s);
    assert [] + [s] == [s];
  }

  /** The output of a run over two lists of sources is the output of the first
      followed by that of the second. */
  lemma MergeAllAppend(a: seq<Source>, b: seq<Source>, disk: Disk)
    ensures MergeAll(a + b, disk) == MergeAll(a, disk) + MergeAll(b, disk)
  {
    ConcatAppend(Contribution(disk), a, b);
  }

  /** A source whose file cannot be parsed adds nothing, and the sources before and
      after it contribute exactly what they would without it. */
  lemma MergeAllSkipsUnreadable(a: seq<Source>, s: Source, b: seq<Source>, disk: Disk)
    requires FirstExisting(Candidates(s.name), disk.existing).Some?
    requires FirstExisting(Candidates(s.name), disk.existing).value !in disk.parsed
    ensures MergeAll(a + [s] + b, disk) == MergeAll(a, disk) + MergeAll(b, disk)
  {
    MergeAllAppend(a + [s], b, disk);
    MergeAllAppend(a, [s], disk);
    UnreadableAddsNothing(s, disk);
    MergeAllSingle(s, disk);
    assert MergeAll(a, disk) + [] == MergeAll(a, disk);
  }

  /** A source whose file cannot be parsed contributes no record. */
  lemma UnreadableAddsNothing(s: Source, disk: Disk)
    requires FirstExisting(Candidates(s.name), disk.existing).Some?
    requires FirstExisting(Candidates(s.name), disk.existing).value !in disk.parsed
    ensures Contribution(disk)(s) == []
  {
  }

  /** Every record of the output is well formed and carries the category of one of
      the sources. */
  lemma MergeAllWellFormed(sources: seq<Source>, disk: Disk)
    ensures forall l :: l in MergeAll(sources, disk) ==>
      WellFormed(l) && exists s :: s in sources && l.categorie == s.category
  {
    forall l | l in MergeAll(sources, disk)
      ensures WellFormed(l) && exists s :: s in sources && l.categorie == s.category
    {
      ConcatFrom(Contribution(disk), sources, l);
      var s :| s in sources && l in Contribution(disk)(s);
      assert l in SourceOutput(s, disk).0;
    }
  }

  /** One outcome applied to the output list: an emitted record is pushed; a throw
      stops the loop. */
  method ApplyOutcome(outcome: Outcome, allLocations: seq<Location>, result: seq<Location>, ghost done: seq<Outcome>)
    returns (next: seq<Location>, stop: bool)
    requires |result| >= |allLocations| && result[..|allLocations|] == allLocations
    requires Collect(done) == (result[|allLocations|..], false)
    ensures stop == outcome.Fail?
    ensures |next| >= |allLocations| && next[..|allLocations|] == allLocations
    ensures Collect(done + [outcome]) == (next[|allLocations|..], stop)
  {
    CollectStep(done, outcome);
    next, stop := result, false;
    match outcome {
      case Fail =>
        stop := true;
      case Skip =>
      case Emit(loc) =>
        next := result + [loc];
        assert next[|allLocations|..] == result[|allLocations|..] + [loc];
    }
  }

  /** The `forEach` over the items of one source, appending each accepted record;
      an item that throws ends it, and what was appended before stays. */
  method AppendItems(items: seq<Json>, source: Source, allLocations: seq<Location>)
    returns (result: seq<Location>, threw: bool)
    ensures (result, threw) == (allLocations + Collect(Outcomes(items, source)).0, Collect(Outcomes(items, source)).1)
  {
    ghost var os := Outcomes(items, source);
    result := allLocations;
    assert result[|allLocations|..] == [];
    for i := 0 to |items|
      invariant |result| >= |allLocations| && result[..|allLocations|] == allLocations
      invariant Collect(os[..i]) == (result[|allLocations|..], false)
    {
      assert os[..i + 1] == os[..i] + [os[i]];
      var outcome := ClassifyItem(items[i], source);
      OutcomesAt(items, source, i);
      var stop;
      result, stop := ApplyOutcome(outcome, allLocations, result, os[..i]);
      if stop {
        CollectStops(os, i + 1);
        assert result == allLocations + result[|allLocations|..];
        return result, true;
      }
    }
    assert os[..|items|] == os;
    assert result == allLocations + result[|allLocations|..];
    threw := false;
  }

  /** One source, as the `forEach` body over the sources runs it, appending to the
      shared output list. */
  method ProcessSource(source: Source, disk: Disk, allLocations: seq<Location>)
    returns (result: seq<Location>, report: Report)
    ensures result == allLocations + SourceOutput(source, disk).0
    ensures report == SourceOutput(source, disk).1
  {
    result := allLocations;
    var filePath := ResolvePath(source.name, disk.existing);
    if filePath.None? {
      return result, NotFound;
    }
    if filePath.value !in disk.parsed {
      return result, ReadError;
    }
    var items := Unwrap(disk.parsed[filePath.value]);
    if items.None? {
      return result, ReadError;
    }
    var locations, threw := AppendItems(items.value, source, result);
    result := locations;
    report := if threw then ReadError else Added(|result| - |allLocations|);
  }

  /** One more source adds its own records after those of the sources before it. */
  lemma MergeAllPrefix(sources: seq<Source>, i: nat, disk: Disk)
    requires i < |sources|
    ensures MergeAll(sources[..i + 1], disk) == MergeAll(sources[..i], disk) + SourceOutput(sources[i], disk).0
  {
    assert sources[..i + 1] == sources[..i] + [sources[i]];
    MergeAllAppend(sources[..i], [sources[i]], disk);
  }

  /** One more source adds its report after those of the earlier sources. */
  lemma ReportsPrefix(sources: seq<Source>, i: nat, disk: Disk, reports: seq<Report>, report: Report)
    requires i < |sources| && |reports| == i
    requires forall k :: 0 <= k < i ==> reports[k] == SourceOutput(sources[k], disk).1
    requires report == SourceOutput(sources[i], disk).1
    ensures forall k :: 0 <= k < i + 1 ==> (reports + [report])[k] == SourceOutput(sources[k], disk).1
  {
  }

  /** The whole run: every source in order, each appending to one list. */
  method MergeSources(sources: seq<Source>, disk: Disk) returns (allLocations: seq<Location>, reports: seq<Report>)
    ensures allLocations == MergeAll(sources, disk)
    ensures |reports| == |sources|
    ensures forall i :: 0 <= i < |sources| ==> reports[i] == SourceOutput(sources[i], disk).1
  {
    allLocations, reports := [], [];
    for i := 0 to |sources|
      invariant allLocations == MergeAll(sources[..i], disk)
      invariant |reports| == i
      invariant forall k :: 0 <= k < i ==> reports[k] == SourceOutput(sources[k], disk).1
    {
      MergeAllPrefix(sources, i, disk);
      var report;
      allLocations, report := ProcessSource(sources[i], disk, allLocations);
      ReportsPrefix(sources, i, disk, reports, report);
      reports := reports + [report];
    }
    assert sources[..|sources|] == sources;
  }
}
