/** The unit normaliser of the recipe-import function
    (supabase/functions/import-recipe/index.ts, `convertUnits`): every
    `name|quantity|unit` line whose unit is litres, decilitres, centilitres
    or kilograms is rewritten in millilitres or grams; every other line is
    kept as it is. */
module ImportRecipe {
  import opened Wrappers
  import opened Strings

  /** The unit as the source compares it: `unit.trim().toLowerCase()`. */
  function UnitKey(unit: string): string {
    Lower(Trim(unit))
  }

  /** The conversion table: for a unit key, the factor applied to the
      quantity and the unit written instead. Units outside it are kept. */
  function Conversion(key: string): Option<(real, string)> {
    if key == "l" then Some((1000.0, "mL"))
    else if key == "dl" then Some((100.0, "mL"))
    else if key == "cl" then Some((10.0, "mL"))
    else if key == "kg" then Some((1000.0, "g"))
    else None
  }

  /** The rebinding of `quantity` and `unit` inside the `map` callback,
      once the quantity has parsed as the number `v`. */
  function Rescale(v: real, quantity: string, unit: string, num: Numerals): (r: (string, string))
    ensures r == match Conversion(UnitKey(unit))
                 case None => (quantity, unit)
                 case Some((factor, canonical)) => (num.show(v * factor), canonical)
  {
    var key := UnitKey(unit);
    if key == "l" then (num.show(v * 1000.0), "mL")
    else if key == "dl" then (num.show(v * 100.0), "mL")
    else if key == "cl" then (num.show(v * 10.0), "mL")
    else if key == "kg" then (num.show(v * 1000.0), "g")
    else (quantity, unit)
  }

  /** One line of `convertUnits`. */
  function ConvertLine(line: string, num: Numerals): string
  {
    if '|' !in line then line
    else
      var parts := Split(line, '|');
      if |parts| != 3 then line
      else
        var name, quantity, unit := parts[0], parts[1], parts[2];
        var (q, u) := match num.parseFloat(quantity)
                      case None => (quantity, unit)
                      case Some(v) => Rescale(v, quantity, unit, num);
        name + "|" + q + "|" + u
  }

  /** `convertUnits(text)`: the lines of `text`, each converted on its own. */
  function ConvertUnits(text: string, num: Numerals): string
  {
    var lines := Split(text, '\n');
    Join(seq(|lines|, i requires 0 <= i < |lines| => ConvertLine(lines[i], num)), "\n")
  }

  /** `String(number)` never writes a field or line separator. */
  ghost predicate PlainNumerals(num: Numerals) {
    forall x: real :: '|' !in num.show(x) && '\n' !in num.show(x)
  }

  /** The lines that `ConvertLine` rewrites: three fields, a quantity that
      parses, and a unit in the conversion table. */
  predicate Converts(line: string, num: Numerals) {
    var parts := Split(line, '|');
    && '|' in line
    && |parts| == 3
    && num.parseFloat(parts[1]).Some?
    && Conversion(UnitKey(parts[2])).Some?
  }

  lemma Join3(a: string, b: string, c: string)
    ensures Join([a, b, c], "|") == a + "|" + b + "|" + c
  {
    assert [a, b, c][1..] == [b, c];
    assert [b, c][1..] == [c];
    assert Join([b, c], "|") == b + "|" + c;
    assert Join([a, b, c], "|") == a + "|" + (b + "|" + c);
    assert a + "|" + (b + "|" + c) == a + "|" + b + "|" + c;
  }

  /** A line without `|`, with other than three fields, with a quantity that
      does not parse, or with a unit outside the table comes out unchanged. */
  lemma {:induction false} ConvertLineKeeps(line: string, num: Numerals)
    requires !Converts(line, num)
    ensures ConvertLine(line, num) == line
  {
    var parts := Split(line, '|');
    if '|' in line && |parts| == 3 {
      var (q, u) := match num.parseFloat(parts[1])
                    case None => (parts[1], parts[2])
                    case Some(v) => Rescale(v, parts[1], parts[2], num);
      assert (q, u) == (parts[1], parts[2]);
      assert ConvertLine(line, num) == parts[0] + "|" + parts[1] + "|" + parts[2];
      Join3(parts[0], parts[1], parts[2]);
      assert parts == [parts[0], parts[1], parts[2]];
      JoinSplit(line, '|');
    }
  }

  /** A line that converts gets its quantity multiplied by the table's
      factor and its unit replaced by the table's unit; the name is kept. */
  lemma {:induction false} ConvertLineRescales(line: string, num: Numerals)
    requires Converts(line, num)
    ensures var parts := Split(line, '|');
            var v := num.parseFloat(parts[1]).value;
            var qu := Rescale(v, parts[1], parts[2], num);
            ConvertLine(line, num) == Join([parts[0], qu.0, qu.1], "|")
  {
    var parts := Split(line, '|');
    var v := num.parseFloat(parts[1]).value;
    assert num.parseFloat(parts[1]) == Some(v);
    var qu := Rescale(v, parts[1], parts[2], num);
    assert ConvertLine(line, num) == parts[0] + "|" + qu.0 + "|" + qu.1;
    Join3(parts[0], qu.0, qu.1);
  }

  /** The three fields of a converted line: separator-free, the name first,
      and a unit the table does not convert again. */
  lemma ConvertedFields(line: string, num: Numerals) returns (out: seq<string>)
    requires PlainNumerals(num)
    requires Converts(line, num)
    ensures |out| == 3 && ConvertLine(line, num) == Join(out, "|")
    ensures out[0] == Split(line, '|')[0]
    ensures forall i :: 0 <= i < 3 ==> '|' !in out[i]
    ensures out[2] == "mL" || out[2] == "g"
  {
    var parts := Split(line, '|');
    var v := num.parseFloat(parts[1]).value;
    var qu := Rescale(v, parts[1], parts[2], num);
    ConvertLineRescales(line, num);
    out := [parts[0], qu.0, qu.1];
    assert qu.1 == "mL" || qu.1 == "g";
    assert '|' !in parts[0];
  }

  /** Unit matching ignores case and surrounding whitespace: `l` and `L`,
      padded or not, are litres, and nothing else is. */
  lemma LitreKey(unit: string)
    ensures UnitKey(unit) == "l" <==> Trim(unit) == "l" || Trim(unit) == "L"
  {
    var t := Trim(unit);
    if Lower(t) == "l" {
      assert |t| == 1 && Lower(t)[0] == LowerChar(t[0]) == 'l';
      assert t == [t[0]];
    }
  }

  /** Kilograms: any case of `kg`, including the KELVIN SIGN that
      `toLowerCase` maps to `k`. */
  lemma KilogramKey(unit: string)
    ensures UnitKey(unit) == "kg" <==>
            |Trim(unit)| == 2 && Trim(unit)[0] in {'k', 'K', '\U{212A}'} && Trim(unit)[1] in {'g', 'G'}
  {
    var t := Trim(unit);
    if Lower(t) == "kg" {
      assert |t| == 2 && Lower(t)[0] == LowerChar(t[0]) == 'k';
      assert Lower(t)[1] == LowerChar(t[1]) == 'g';
    }
    if |t| == 2 && t[0] in {'k', 'K', '\U{212A}'} && t[1] in {'g', 'G'} {
      assert Lower(t) == "kg";
    }
  }

  /** The units the normaliser writes are not in its own table. */
  lemma OutputUnitsAreFinal()
    ensures Conversion(UnitKey("mL")) == None
    ensures Conversion(UnitKey("g")) == None
  {
    assert UnitKey("mL") == "ml" by {
      TrimOfTrimmed("mL");
    }
    assert UnitKey("g") == "g" by {
      TrimOfTrimmed("g");
    }
  }

  lemma {:induction false} ConvertLineAvoidsNewline(line: string, num: Numerals)
    requires PlainNumerals(num)
    requires '\n' !in line
    ensures '\n' !in ConvertLine(line, num)
  {
    if Converts(line, num) {
      ConvertLineRescales(line, num);
      var parts := Split(line, '|');
      var v := num.parseFloat(parts[1]).value;
      var qu := Rescale(v, parts[1], parts[2], num);
      JoinSplit(line, '|');
      JoinPartsAvoid(parts, '\n');
      JoinAvoids([parts[0], qu.0, qu.1], "|", '\n');
    } else {
      ConvertLineKeeps(line, num);
    }
  }

  lemma JoinPartsAvoid(parts: seq<string>, c: char)
    requires c !in Join(parts, "|")
    ensures forall i :: 0 <= i < |parts| ==> c !in parts[i]
  {
    if |parts| > 1 {
      JoinPartsAvoid(parts[1..], c);
    }
  }

  /** Whatever the line, its first field (the ingredient name) is kept. */
  lemma {:induction false} ConvertLineKeepsName(line: string, num: Numerals)
    requires PlainNumerals(num)
    ensures Split(ConvertLine(line, num), '|')[0] == Split(line, '|')[0]
  {
    if Converts(line, num) {
      var out := ConvertedFields(line, num);
      SplitJoin(out, '|');
    } else {
      ConvertLineKeeps(line, num);
    }
  }

  /** Converting a line twice is converting it once: the units written
      (`mL`, `g`) are not in the table. */
  lemma {:induction false} ConvertLineIdempotent(line: string, num: Numerals)
    requires PlainNumerals(num)
    ensures ConvertLine(ConvertLine(line, num), num) == ConvertLine(line, num)
  {
    if Converts(line, num) {
      var out := ConvertedFields(line, num);
      SplitJoin(out, '|');
      OutputUnitsAreFinal();
      assert !Converts(Join(out, "|"), num);
      ConvertLineKeeps(Join(out, "|"), num);
    } else {
      ConvertLineKeeps(line, num);
    }
  }

  /** The output has exactly as many lines as the input, and each output
      line is the conversion of the input line at the same position. */
  lemma ConvertUnitsLineWise(text: string, num: Numerals)
    requires PlainNumerals(num)
    ensures var lines := Split(text, '\n');
            var out := Split(ConvertUnits(text, num), '\n');
            |out| == |lines| && forall i :: 0 <= i < |lines| ==> out[i] == ConvertLine(lines[i], num)
  {
    var lines := Split(text, '\n');
    var converted := seq(|lines|, i requires 0 <= i < |lines| => ConvertLine(lines[i], num));
    forall i | 0 <= i < |converted| ensures '\n' !in converted[i] {
      ConvertLineAvoidsNewline(lines[i], num);
    }
    SplitJoin(converted, '\n');
  }

  /** `convertUnits` is idempotent. */
  lemma ConvertUnitsIdempotent(text: string, num: Numerals)
    requires PlainNumerals(num)
    ensures ConvertUnits(ConvertUnits(text, num), num) == ConvertUnits(text, num)
  {
    var once := ConvertUnits(text, num);
    ConvertUnitsLineWise(text, num);
    var lines := Split(text, '\n');
    var mid := Split(once, '\n');
    var twice := seq(|mid|, i requires 0 <= i < |mid| => ConvertLine(mid[i], num));
    var converted := seq(|lines|, i requires 0 <= i < |lines| => ConvertLine(lines[i], num));
    forall i | 0 <= i < |mid| ensures twice[i] == converted[i] {
      ConvertLineIdempotent(lines[i], num);
    }
    assert twice == converted;
  }
}
