/**
 What a frame of server-sent events says (scripts/task-business/read-only-probe.ts:617-622): the values of its data
 lines, one per line, whatever other fields and comments stand between them.
 */
module SseFields {
  import opened Utf16
  import opened SseReader

  /** A line of a frame: a data field with some white space before its value, or anything else. */
  datatype Field = DataField(pad: Text, value: Text) | OtherField(line: Text)

  function LineOf(f: Field): Text {
    match f
    case DataField(pad, value) => [100, 97, 116, 97, 58] + (pad + value)
    case OtherField(line) => line
  }

  predicate IsLine(f: Field) {
    && LF !in LineOf(f)
    && match f
       case DataField(pad, value) => (forall c <- pad :: White(c)) && (value == [] || !White(value[0]))
       case OtherField(line) => !(line[..if |line| < 5 then |line| else 5] == [100, 97, 116, 97, 58])
  }

  function LinesOf(fields: seq<Field>): seq<Text> {
    if fields == [] then [] else [LineOf(fields[0])] + LinesOf(fields[1..])
  }

  /** The values of the data fields, in order. */
  function ValuesOf(fields: seq<Field>): seq<Text> {
    if fields == [] then []
    else (if fields[0].DataField? then [fields[0].value] else []) + ValuesOf(fields[1..])
  }

  /** The white space of ECMAScript, its line terminators included. */
  lemma WhiteExactly(c: Unit)
    ensures White(c) <==>
            c in {0x09, 0x0A, 0x0B, 0x0C, 0x0D, 0x20, 0xA0, 0x1680, 0x2000, 0x2001, 0x2002, 0x2003, 0x2004, 0x2005,
                  0x2006, 0x2007, 0x2008, 0x2009, 0x200A, 0x2028, 0x2029, 0x202F, 0x205F, 0x3000, 0xFEFF}
  {}

  lemma {:induction false} Trims(pad: Text, value: Text)
    requires (forall c <- pad :: White(c)) && (value == [] || !White(value[0]))
    ensures TrimStart(pad + value) == value
  {
    if pad == [] {
      assert pad + value == value;
    } else {
      assert (pad + value)[0] == pad[0] && (pad + value)[1..] == pad[1..] + value;
      Trims(pad[1..], value);
    }
  }

  lemma {:induction false} UnlinesThenLines(lines: seq<Text>)
    requires lines != [] && forall l <- lines :: LF !in l
    ensures Lines(Unlines(lines)) == lines
  {
    if |lines| == 1 {
      OneLine(lines[0]);
    } else {
      UnlinesThenLines(lines[1..]);
      Associate(lines[0], [LF], Unlines(lines[1..]));
      LinesBreak(lines[0], Unlines(lines[1..]));
      assert lines == [lines[0]] + lines[1..];
    }
  }

  lemma DataFieldIsData(f: Field)
    requires IsLine(f) && f.DataField?
    ensures DATA <= LineOf(f) && TrimStart(LineOf(f)[5..]) == f.value
  {
    Trims(f.pad, f.value);
    assert LineOf(f)[5..] == f.pad + f.value;
    assert LineOf(f)[..5] == DATA;
  }

  lemma OtherFieldIsNot(f: Field)
    requires IsLine(f) && f.OtherField?
    ensures !(DATA <= LineOf(f))
  {
    assert |f.line| >= 5 ==> f.line[..5] != DATA;
  }

  lemma {:induction false} DataLinesAreValues(fields: seq<Field>)
    requires forall i :: 0 <= i < |fields| ==> IsLine(fields[i])
    ensures DataLines(LinesOf(fields)) == ValuesOf(fields)
  {
    if fields != [] {
      DataLinesAreValues(fields[1..]);
      assert LinesOf(fields)[1..] == LinesOf(fields[1..]);
      if fields[0].DataField? {
        DataFieldIsData(fields[0]);
      } else {
        OtherFieldIsNot(fields[0]);
      }
    }
  }

  lemma {:induction false} LinesOfHaveNoBreak(fields: seq<Field>)
    requires forall i :: 0 <= i < |fields| ==> IsLine(fields[i])
    ensures forall l <- LinesOf(fields) :: LF !in l
    ensures fields != [] ==> LinesOf(fields) != []
  {
    if fields != [] {
      LinesOfHaveNoBreak(fields[1..]);
    }
  }

  /** A frame of any fields says the values of its data fields, joined line by line. */
  lemma FrameSaysItsData(fields: seq<Field>)
    requires fields != [] && forall i :: 0 <= i < |fields| ==> IsLine(fields[i])
    ensures Data(Unlines(LinesOf(fields))) == Unlines(ValuesOf(fields))
  {
    LinesOfHaveNoBreak(fields);
    UnlinesThenLines(LinesOf(fields));
    DataLinesAreValues(fields);
  }

  /** Frames without data are passed over, the others are handed on in order. */
  lemma MessageOfEach(frames: seq<Text>, f: Text)
    ensures Messages([]) == []
    ensures Messages(frames + [f]) == if Data(f) == [] then Messages(frames) else Messages(frames) + [Data(f)]
  {
    assert (frames + [f])[..|frames|] == frames;
  }
}
