/** `make_shutter_values_string`: one row per frame, joined with newlines
    (shutter_value_generator/make_shutter_value_file.py, lines 156-164). Rows
    are records; the Python float-to-text formatting is a parameter. `run`
    never calls this function: its call there is commented out. */
module ShutterRows {
  import opened Results
  import opened ShutterConstants
  import opened ClockTable

  /** One line of the shutter value file: start (s), end (s), divisor, time bin (us). */
  datatype ShutterRow = ShutterRow(start: real, end: real, divided: int, timeBinMicros: real)

  /** Length of a frame, in seconds. */
  function Duration(f: Frame): real
  {
    f.end - f.start
  }

  /** The rows for a list of frames: each frame's divisor is looked up from its
      duration. A lookup that fails aborts the whole list (the source raises).
      On a descending table each divisor is that of the smallest clock period
      covering the frame. */
  method MakeShutterValues(frames: seq<Frame>, table: seq<ClockRow>) returns (rows: Option<seq<ShutterRow>>)
    ensures rows.Some? <==>
              forall i | 0 <= i < |frames| :: GetAboveClosestDivided(Duration(frames[i]), table).Some?
    ensures rows.Some? ==> |rows.value| == |frames|
    ensures rows.Some? ==> forall i | 0 <= i < |frames| ::
              && rows.value[i].start == frames[i].start
              && rows.value[i].end == frames[i].end
              && rows.value[i].timeBinMicros == TimeBinMicros
              && Some(rows.value[i].divided) == GetAboveClosestDivided(Duration(frames[i]), table)
    ensures rows.Some? && StrictlyDescending(table) ==> forall i | 0 <= i < |frames| ::
              IsSmallestSufficientDivisor(table, Duration(frames[i]) * 1000.0, rows.value[i].divided)
  {
    var acc: seq<ShutterRow> := [];
    var i := 0;
    while i < |frames|
      invariant 0 <= i <= |frames| && |acc| == i
      invariant forall j | 0 <= j < i :: GetAboveClosestDivided(Duration(frames[j]), table).Some?
      invariant forall j | 0 <= j < i ::
                  && acc[j].start == frames[j].start
                  && acc[j].end == frames[j].end
                  && acc[j].timeBinMicros == TimeBinMicros
                  && Some(acc[j].divided) == GetAboveClosestDivided(Duration(frames[j]), table)
    {
      var divided := GetAboveClosestDivided(Duration(frames[i]), table);
      if divided.None? {
        return None;
      }
      acc := acc + [ShutterRow(frames[i].start, frames[i].end, divided.value, TimeBinMicros)];
      i := i + 1;
    }
    if StrictlyDescending(table) {
      forall j | 0 <= j < |frames|
        ensures IsSmallestSufficientDivisor(table, Duration(frames[j]) * 1000.0, acc[j].divided)
      {
        LookupIsSmallestSufficient(Duration(frames[j]), table);
      }
    }
    return Some(acc);
  }

  /** `"\n".join(lines)`: no separator before the first or after the last line. */
  function JoinLines(lines: seq<string>): string
  {
    if |lines| == 0 then ""
    else if |lines| == 1 then lines[0]
    else lines[0] + "\n" + JoinLines(lines[1..])
  }

  /** `text.split("\n")`: the pieces between newlines; always at least one. */
  function SplitLines(text: string): (lines: seq<string>)
    ensures |lines| >= 1
  {
    if |text| == 0 then [""]
    else
      var rest := SplitLines(text[1..]);
      if text[0] == '\n' then [""] + rest
      else [[text[0]] + rest[0]] + rest[1..]
  }

  /** A line holds no newline character. */
  predicate SingleLine(line: string)
  {
    '\n' !in line
  }

  /** Splitting text that starts with a newline-free prefix extends the first piece. */
  lemma {:induction false} SplitPrefix(prefix: string, text: string)
    requires SingleLine(prefix)
    ensures SplitLines(prefix + text)
            == [prefix + SplitLines(text)[0]] + SplitLines(text)[1..]
  {
    if |prefix| > 0 {
      assert (prefix + text)[1..] == prefix[1..] + text;
      assert prefix[0] != '\n';
      SplitPrefix(prefix[1..], text);
      assert [prefix[0]] + (prefix[1..] + SplitLines(text)[0]) == prefix + SplitLines(text)[0];
    } else {
      assert prefix + text == text;
      assert prefix + SplitLines(text)[0] == SplitLines(text)[0];
    }
  }

  /** Joining newline-free lines and splitting the text gives the lines back,
      so the file has exactly one line per row and no trailing newline. */
  lemma {:induction false} SplitJoin(lines: seq<string>)
    requires |lines| >= 1
    requires forall i | 0 <= i < |lines| :: SingleLine(lines[i])
    ensures SplitLines(JoinLines(lines)) == lines
  {
    if |lines| == 1 {
      SplitPrefix(lines[0], "");
      assert lines[0] + "" == lines[0];
      assert SplitLines("") == [""];
    } else {
      var rest := JoinLines(lines[1..]);
      SplitJoin(lines[1..]);
      assert lines[0] + "\n" + rest == lines[0] + ("\n" + rest);
      SplitPrefix(lines[0], "\n" + rest);
      assert ("\n" + rest)[1..] == rest;
      assert SplitLines("\n" + rest) == [""] + lines[1..];
      assert lines[0] + "" == lines[0];
    }
  }

  /** The text of a shutter value file: one formatted row per line. */
  function ShutterValuesText(rows: seq<ShutterRow>, format: ShutterRow -> string): string
  {
    JoinLines(seq(|rows|, i requires 0 <= i < |rows| => format(rows[i])))
  }

  /** With a formatter that never emits a newline, the text splits back into
      exactly the formatted rows, in order. */
  lemma ShutterValuesTextLines(rows: seq<ShutterRow>, format: ShutterRow -> string)
    requires |rows| >= 1
    requires forall r :: SingleLine(format(r))
    ensures SplitLines(ShutterValuesText(rows, format))
            == seq(|rows|, i requires 0 <= i < |rows| => format(rows[i]))
  {
    SplitJoin(seq(|rows|, i requires 0 <= i < |rows| => format(rows[i])));
  }

  /** The default preset is the three baseline windows with divisors 5, 6, 7;
      the resonance preset is a single row. */
  lemma PresetLines()
    ensures SplitLines(DefaultShutterValues)
            == ["1e-6\t2.5e-3\t5\t10.24", "2.9e-3\t5.8e-3\t6\t10.24", "6.2e-3\t15.9e-3\t7\t10.24"]
    ensures SplitLines(ResonanceShutterValues) == [ResonanceShutterValues]
  {
    var lines := ["1e-6\t2.5e-3\t5\t10.24", "2.9e-3\t5.8e-3\t6\t10.24", "6.2e-3\t15.9e-3\t7\t10.24"];
    assert lines[1..] == [lines[1], lines[2]] && lines[1..][1..] == [lines[2]];
    assert JoinLines(lines) == lines[0] + "\n" + lines[1] + "\n" + lines[2];
    assert DefaultShutterValues == lines[0] + "\n" + lines[1] + "\n" + lines[2];
    SplitJoin(lines);
    SplitJoin([ResonanceShutterValues]);
  }
}
