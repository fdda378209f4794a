/** The calculation history: the rows of riwayat.csv, the record built when
    the "Hitung dan Simpan" button is pressed, and the session's copy of the
    history. The CSV file is modelled as the sequence of rows it holds, or
    None while it does not exist; parsing and writing CSV text are not. */
module History {
  import opened Broca

  datatype Option<T> = None | Some(value: T)

  /** Tanggal: a calendar date, any date the date picker allows. */
  datatype Date = Date(year: int, month: int, day: int)

  /** One history row; the fields follow the CSV columns Tanggal, Tinggi (cm),
      Jenis Kelamin, Berat Aktual, Berat Ideal (kg) and Status Gizi. */
  datatype Record = Record(
    date: Date,
    height: int,
    sex: Sex,
    actualWeight: real,
    idealWeight: real,
    status: Status)

  /** What the form holds when the button is pressed. */
  datatype Input = Input(height: int, weight: real, sex: Sex, date: Date)

  /** A row whose ideal weight and status were computed from its own height,
      sex and actual weight: the ideal weight rounded to one decimal, the
      status against the unrounded ideal weight. */
  predicate Derived(r: Record)
    ensures Derived(r) ==> -0.05 <= r.idealWeight - IdealWeight(r.height, r.sex) <= 0.05
    ensures Derived(r) ==> (r.status == Ideal <==>
      0.9 * IdealWeight(r.height, r.sex) <= r.actualWeight <= 1.1 * IdealWeight(r.height, r.sex))
  {
    r.idealWeight == RoundTenth(IdealWeight(r.height, r.sex)) &&
    r.status == Classify(r.height, r.actualWeight, r.sex)
  }

  /** The row the button handler builds, or None when the height check fails. */
  function MakeRecord(input: Input): (r: Option<Record>)
    ensures r.Some? <==> input.height > 0
    ensures r.Some? ==> Derived(r.value)
    ensures r.Some? ==>
      r.value.date == input.date && r.value.height == input.height &&
      r.value.sex == input.sex && r.value.actualWeight == input.weight
  {
    if input.height > 0 then
      var ideal := IdealWeight(input.height, input.sex);
      Some(Record(input.date, input.height, input.sex, input.weight,
                  RoundTenth(ideal), Classify(input.height, input.weight, input.sex)))
    else
      None
  }

  /** load_data: the stored rows, and no rows when there is no file yet. */
  function LoadData(file: Option<seq<Record>>): (rows: seq<Record>)
    ensures file == None ==> rows == []
    ensures file != None ==> rows == file.value
  {
    match file
    case None => []
    case Some(stored) => stored
  }

  /** The file after one press of the button: unchanged when the height check
      fails, otherwise written back with the new row after all the rows that
      were loaded. */
  function Press(file: Option<seq<Record>>, input: Input): (file': Option<seq<Record>>)
    ensures MakeRecord(input) == None ==> file' == file
    ensures MakeRecord(input) != None ==>
      file' != None &&
      |LoadData(file')| == |LoadData(file)| + 1 &&
      LoadData(file')[..|LoadData(file)|] == LoadData(file) &&
      LoadData(file')[|LoadData(file)|] == MakeRecord(input).value
  {
    match MakeRecord(input)
    case None => file
    case Some(row) => Some(LoadData(file) + [row])
  }

  /** The file after a series of presses, in order. */
  function PressAll(file: Option<seq<Record>>, inputs: seq<Input>): (file': Option<seq<Record>>)
    ensures |LoadData(file')| <= |LoadData(file)| + |inputs|
    ensures |LoadData(file)| <= |LoadData(file')|
    ensures LoadData(file')[..|LoadData(file)|] == LoadData(file)
    decreases |inputs|
  {
    if inputs == [] then file else PressAll(Press(file, inputs[0]), inputs[1..])
  }

  /** The number of presses whose height passes the check. */
  function CountValid(inputs: seq<Input>): nat
    decreases |inputs|
  {
    if inputs == [] then 0
    else (if inputs[0].height > 0 then 1 else 0) + CountValid(inputs[1..])
  }

  /** The rows a series of presses creates, in order. */
  function Created(inputs: seq<Input>): (rows: seq<Record>)
    ensures |rows| == CountValid(inputs) <= |inputs|
    ensures forall k :: 0 <= k < |rows| ==> Derived(rows[k]) && rows[k].height > 0
    decreases |inputs|
  {
    if inputs == [] then []
    else
      match MakeRecord(inputs[0])
      case None => Created(inputs[1..])
      case Some(row) => [row] + Created(inputs[1..])
  }

  /** The store is append-only: after any series of presses it holds every
      earlier row, unchanged and in its place, followed by the new rows in the
      order they were created. */
  lemma {:induction false} PressAllAppends(file: Option<seq<Record>>, inputs: seq<Input>)
    ensures LoadData(PressAll(file, inputs)) == LoadData(file) + Created(inputs)
    decreases |inputs|
  {
    if inputs != [] {
      var next := Press(file, inputs[0]);
      assert PressAll(file, inputs) == PressAll(next, inputs[1..]);
      PressAllAppends(next, inputs[1..]);
      match MakeRecord(inputs[0])
      case None =>
        assert Created(inputs) == Created(inputs[1..]);
      case Some(row) =>
        assert LoadData(next) == LoadData(file) + [row];
        assert Created(inputs) == [row] + Created(inputs[1..]);
        assert (LoadData(file) + [row]) + Created(inputs[1..]) == LoadData(file) + ([row] + Created(inputs[1..]));
    }
  }

  /** Presses that fail the height check leave the file as it was. */
  lemma {:induction false} InvalidPressesKeepFile(file: Option<seq<Record>>, inputs: seq<Input>)
    requires forall i :: 0 <= i < |inputs| ==> inputs[i].height <= 0
    ensures PressAll(file, inputs) == file
    ensures Created(inputs) == []
    decreases |inputs|
  {
    if inputs != [] {
      InvalidPressesKeepFile(file, inputs[1..]);
    }
  }

  /** Every row a press creates is derived from its own inputs, so a file
      whose rows were all derived stays so. */
  lemma {:induction false} PressAllKeepsDerived(file: Option<seq<Record>>, inputs: seq<Input>)
    requires forall k :: 0 <= k < |LoadData(file)| ==> Derived(LoadData(file)[k])
    ensures forall k :: 0 <= k < |LoadData(PressAll(file, inputs))| ==>
      Derived(LoadData(PressAll(file, inputs))[k])
    decreases |inputs|
  {
    if inputs != [] {
      PressAllKeepsDerived(Press(file, inputs[0]), inputs[1..]);
    }
  }

  /** The running app: the CSV file and the history kept in the session. */
  class App {
    /** riwayat.csv: None while no row has ever been saved. */
    var file: Option<seq<Record>>
    /** The history held in the session, which the table and chart show. */
    var history: seq<Record>

    /** The session's history is what the file holds. */
    ghost predicate Synced()
      reads this
    {
      history == LoadData(file)
    }

    /** A new session: its history is loaded from the file. */
    constructor (stored: Option<seq<Record>>)
      ensures file == stored
      ensures history == LoadData(stored)
      ensures Synced()
    {
      file := stored;
      history := LoadData(stored);
    }

    /** save_data: load every stored row, append the new one, write the whole
        history back and return it. */
    method SaveData(row: Record) returns (rows: seq<Record>)
      modifies this`file
      ensures rows == old(LoadData(file)) + [row]
      ensures file == Some(rows)
    {
      rows := LoadData(file);
      rows := rows + [row];
      file := Some(rows);
    }

    /** The button handler: when the height check passes, build the row, save
        it and make the saved history the session's; otherwise change nothing.
        Returns the row that is shown to the user. */
    method PressButton(input: Input) returns (shown: Option<Record>)
      modifies this
      ensures shown == MakeRecord(input)
      ensures file == Press(old(file), input)
      ensures shown == None ==> history == old(history)
      ensures shown != None ==> Synced()
      ensures old(Synced()) ==> Synced()
      ensures old(Synced()) && shown != None ==> history == old(history) + [shown.value]
    {
      shown := MakeRecord(input);
      if input.height > 0 {
        var updated := SaveData(shown.value);
        history := updated;
      }
    }
  }
}
