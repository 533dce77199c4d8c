/** `parse_csv_row`: one row of comma-separated values with optional quoting (rules 5 to 7 of section 2 of
    RFC 4180). */
module Csv {
  import Text


  /** The fields from a state of the scanner on: the field begun so far, and whether it is inside quotes. */
  function Fields(s: string, field: string, inQuotes: bool): (fields: seq<string>)
    ensures fields != []
    decreases |s|
  {
    if s == "" then [field]
    else if s[0] == '"' then
      if !inQuotes then if field != "" then Fields(s[1..], field + "\"", false) else Fields(s[1..], field, true)
      else if |s| > 1 && s[1] == '"' then Fields(s[2..], field + "\"", true)
      else Fields(s[1..], field, false)
    else if s[0] == ',' && !inQuotes then [field] + Fields(s[1..], "", false)
    else Fields(s[1..], field + [s[0]], inQuotes)
  }

  function Row(input: string): (fields: seq<string>) { Fields(input, "", false) }

  method ParseCsvRow(input: string) returns (fields: seq<string>)
    ensures fields == Row(input)
  {
    hide Fields;
    fields := [];
    var field, inQuotes := "", false;
    var i := 0;
    assert input[0..] == input;
    while i < |input|
      invariant i <= |input| && fields + Fields(input[i..], field, inQuotes) == Row(input)
    {
      FieldsStep(input, i, field, inQuotes);
      var ch := input[i];
      if ch == '"' {
        if !inQuotes {
          if field != "" {
            field := field + "\"";
          } else {
            inQuotes := true;
          }
        } else {
          if i + 1 < |input| && input[i + 1] == '"' {
            field := field + "\"";
            i := i + 1;
          } else {
            inQuotes := false;
          }
        }
      } else if ch == ',' {
        if inQuotes {
          field := field + ",";
        } else {
          Text.Regroup(fields, field, Fields(input[i + 1..], "", false));
          fields := fields + [field];
          field := "";
        }
      } else {
        field := field + [ch];
      }
      i := i + 1;
    }
    assert input[i..] == "";
    NoMoreFields(field, inQuotes);
    fields := fields + [field];
  }

  lemma {:induction false} NoMoreFields(field: string, inQuotes: bool)
    ensures Fields("", field, inQuotes) == [field]
  {
  }

  lemma {:induction false} FieldsStep(input: string, i: nat, field: string, inQuotes: bool)
    requires i < |input|
    ensures Fields(input[i..], field, inQuotes) ==
            if input[i] == '"' then
              if !inQuotes then
                if field != "" then Fields(input[i + 1..], field + "\"", false) else Fields(input[i + 1..], field, true)
              else if i + 1 < |input| && input[i + 1] == '"' then Fields(input[i + 2..], field + "\"", true)
              else Fields(input[i + 1..], field, false)
            else if input[i] == ',' then
              if inQuotes then Fields(input[i + 1..], field + ",", true)
              else [field] + Fields(input[i + 1..], "", false)
            else Fields(input[i + 1..], field + [input[i]], inQuotes)
  {
    var s := input[i..];
    assert s[1..] == input[i + 1..] && (i + 1 < |input| ==> s[1] == input[i + 1] && s[2..] == input[i + 2..]);
  }

  // ---------- printing ----------

  /** A field and whether it is printed in quotes. */
  datatype Cell = Cell(text: string, quoted: bool)

  function Doubled(s: string): (r: string)
  {
    if s == "" then "" else (if s[0] == '"' then "\"\"" else [s[0]]) + Doubled(s[1..])
  }

  /** Texts that mean themselves without quotes. */
  predicate Plain(s: string) { ',' !in s && (s != "" ==> s[0] != '"') }

  function PrintCell(c: Cell): (r: string) { if c.quoted then "\"" + Doubled(c.text) + "\"" else c.text }

  function PrintRow(cells: seq<Cell>): (r: string)
  {
    if cells == [] then ""
    else if |cells| == 1 then PrintCell(cells[0])
    else PrintCell(cells[0]) + "," + PrintRow(cells[1..])
  }

  function Texts(cells: seq<Cell>): (r: seq<string>)
    ensures |r| == |cells|
  {
    seq(|cells|, i requires 0 <= i < |cells| => cells[i].text)
  }

  /** A text inside quotes up to the closing one. */
  lemma {:induction false} ReadQuoted(s: string, rest: string, field: string)
    requires rest == "" || rest[0] != '"'
    ensures Fields(Doubled(s) + "\"" + rest, field, true) == Fields(rest, field + s, false)
    decreases |s|
  {
    if s == "" {
      assert Doubled(s) + "\"" + rest == "\"" + rest && ("\"" + rest)[1..] == rest && field + s == field;
    } else {
      var head := if s[0] == '"' then "\"\"" else [s[0]];
      assert Doubled(s) + "\"" + rest == head + (Doubled(s[1..]) + "\"" + rest);
      ReadHead(s[0], Doubled(s[1..]) + "\"" + rest, field);
      ReadQuoted(s[1..], rest, field + [s[0]]);
      assert field + [s[0]] + s[1..] == field + s;
    }
  }

  lemma {:induction false} ReadHead(c: char, rest: string, field: string)
    ensures Fields((if c == '"' then "\"\"" else [c]) + rest, field, true) == Fields(rest, field + [c], true)
  {
    var s := (if c == '"' then "\"\"" else [c]) + rest;
    if c == '"' {
      assert s[0] == '"' && s[1] == '"' && s[2..] == rest;
    } else {
      assert s[1..] == rest;
    }
  }

  /** A text without quotes around it: after its first character even a quote is just a character. */
  lemma {:induction false} ReadPlain(s: string, rest: string, field: string)
    requires ',' !in s && (s != "" && field == "" ==> s[0] != '"')
    ensures Fields(s + rest, field, false) == Fields(rest, field + s, false)
    decreases |s|
  {
    if s == "" {
      assert s + rest == rest && field + s == field;
    } else {
      assert (s + rest)[0] == s[0] && (s + rest)[1..] == s[1..] + rest && s[0] in s;
      ReadPlain(s[1..], rest, field + [s[0]]);
      assert field + [s[0]] + s[1..] == field + s;
    }
  }

  lemma {:induction false} ReadCell(c: Cell, rest: string)
    requires c.quoted || Plain(c.text)
    requires rest == "" || rest[0] == ','
    ensures Fields(PrintCell(c) + rest, "", false) == Fields(rest, c.text, false)
  {
    assert "" + c.text == c.text;
    if c.quoted {
      var tail := Doubled(c.text) + "\"" + rest;
      assert PrintCell(c) + rest == "\"" + tail && ("\"" + tail)[1..] == tail;
      ReadQuoted(c.text, rest, "");
    } else {
      ReadPlain(c.text, rest, "");
    }
  }

  lemma {:induction false} ReadComma(field: string, rest: string)
    ensures Fields("," + rest, field, false) == [field] + Fields(rest, "", false)
  {
    assert ("," + rest)[1..] == rest;
  }

  /** Reading a printed row gives its fields, for every list of at least one field, with quotes around those that
      need them and any others. */
  lemma {:induction false} RoundTrip(cells: seq<Cell>)
    requires cells != [] && forall i :: 0 <= i < |cells| ==> cells[i].quoted || Plain(cells[i].text)
    ensures Row(PrintRow(cells)) == Texts(cells)
    decreases |cells|
  {
    hide Fields, PrintCell, Plain;
    var c := cells[0];
    if |cells| == 1 {
      ReadCell(c, "");
      assert PrintCell(c) + "" == PrintCell(c);
      NoMoreFields(c.text, false);
    } else {
      var rest := PrintRow(cells[1..]);
      assert PrintCell(c) + "," + rest == PrintCell(c) + ("," + rest);
      ReadCell(c, "," + rest);
      ReadComma(c.text, rest);
      RoundTrip(cells[1..]);
      assert Texts(cells) == [c.text] + Texts(cells[1..]);
    }
  }

  /** A text needs no quotes if and only if it has no comma and does not start with a quote. */
  lemma {:induction false} PlainExactly(s: string)
    ensures Row(s) == [s] <==> Plain(s)
  {
    assert s + "" == s && "" + s == s;
    if Plain(s) {
      ReadPlain(s, "", "");
      NoMoreFields(s, false);
    } else if s[0] == '"' {
      Shrinks(s[1..], "", true);
    } else {
      var k := FirstComma(s);
      assert s == s[..k] + ("," + s[k + 1..]);
      ReadPlain(s[..k], "," + s[k + 1..], "");
      ReadComma("" + s[..k], s[k + 1..]);
      assert |Row(s)| >= 2;
    }
  }

  lemma {:induction false} FirstComma(s: string) returns (k: nat)
    requires ',' in s
    ensures k < |s| && s[k] == ',' && ',' !in s[..k]
  {
    if s[0] == ',' {
      k := 0;
    } else {
      assert s == [s[0]] + s[1..];
      k := FirstComma(s[1..]);
      assert s[..k + 1] == [s[0]] + s[1..][..k];
      k := k + 1;
    }
  }

  function Total(fields: seq<string>): (n: nat)
  {
    if fields == [] then 0 else |fields[0]| + Total(fields[1..])
  }

  /** No character is read twice. */
  lemma {:induction false} Shrinks(s: string, field: string, inQuotes: bool)
    ensures Total(Fields(s, field, inQuotes)) <= |field| + |s|
    decreases |s|
  {
    if s == "" {
      assert [field][1..] == [];
    } else if s[0] == '"' {
      if !inQuotes {
        if field != "" { Shrinks(s[1..], field + "\"", false); } else { Shrinks(s[1..], field, true); }
      } else if |s| > 1 && s[1] == '"' {
        Shrinks(s[2..], field + "\"", true);
      } else {
        Shrinks(s[1..], field, false);
      }
    } else if s[0] == ',' && !inQuotes {
      Shrinks(s[1..], "", false);
      assert ([field] + Fields(s[1..], "", false))[1..] == Fields(s[1..], "", false);
    } else {
      Shrinks(s[1..], field + [s[0]], inQuotes);
    }
  }
}
