/** The drop zone: which dropped or picked file is handed to the application, and the
    highlight flag the drag handlers set. */
module DropZone {
  import opened Wrappers
  import opened Text

  /** A file offered by the browser: its name and its bytes. */
  datatype File = File(name: string, bytes: seq<bv8>)

  /** `name.endsWith('.parquet')`: case-sensitive. */
  predicate IsParquetName(name: string)
  {
    EndsWith(name, ".parquet")
  }

  /** `files.find(...)`: the first file, in the given order, with a parquet name. */
  function FindParquet(files: seq<File>): (r: Option<File>)
    ensures r.None? <==> forall i :: 0 <= i < |files| ==> !IsParquetName(files[i].name)
    ensures r.Some? ==> exists i :: (0 <= i < |files| && files[i] == r.value
      && IsParquetName(r.value.name)
      && forall j :: 0 <= j < i ==> !IsParquetName(files[j].name))
  {
    if |files| == 0 then None
    else if IsParquetName(files[0].name) then Some(files[0])
    else
      var rest := FindParquet(files[1..]);
      assert forall i :: 1 <= i < |files| ==> files[i] == files[1..][i - 1];
      if rest.Some? then
        var k :| 0 <= k < |files[1..]| && files[1..][k] == rest.value
          && IsParquetName(rest.value.name)
          && forall j :: 0 <= j < k ==> !IsParquetName(files[1..][j].name);
        assert files[k + 1] == rest.value;
        rest
      else rest
  }

  /** What a drop or a pick leads to: a file handed to `onFileSelect`, the rejection
      alert, or nothing at all. */
  datatype Choice = Select(file: File) | Alert | Nothing

  /** `handleDrop`: the first parquet file is selected; with none, the alert. */
  function DropChoice(files: seq<File>): Choice
  {
    match FindParquet(files)
    case Some(f) => Select(f)
    case None => Alert
  }

  /** `handleFileInput`: only the first picked file is looked at; an empty pick does nothing. */
  function PickerChoice(files: seq<File>): (r: Choice)
    ensures r == Nothing <==> |files| == 0
    ensures r.Select? ==> r.file == files[0] && IsParquetName(r.file.name)
  {
    if |files| == 0 then Nothing
    else if IsParquetName(files[0].name) then Select(files[0])
    else Alert
  }

  /** A drop never does nothing: it selects exactly the first parquet file of the drop,
      or raises the alert when there is none. */
  lemma DropSelectsFirstParquet(files: seq<File>)
    ensures DropChoice(files) != Nothing
    ensures DropChoice(files) == Alert <==> forall i :: 0 <= i < |files| ==> !IsParquetName(files[i].name)
    ensures forall i :: (0 <= i < |files| && IsParquetName(files[i].name)
      && (forall j :: 0 <= j < i ==> !IsParquetName(files[j].name))
      ==> DropChoice(files) == Select(files[i]))
  {
    forall i | 0 <= i < |files| && IsParquetName(files[i].name)
      && (forall j :: 0 <= j < i ==> !IsParquetName(files[j].name))
      ensures DropChoice(files) == Select(files[i])
    {
      var f := FindParquet(files).value;
      var k :| 0 <= k < |files| && files[k] == f && IsParquetName(f.name)
        && forall j :: 0 <= j < k ==> !IsParquetName(files[j].name);
      assert k == i;
    }
  }

  /** The picker rejects a non-parquet first file even when a later one qualifies, and
      agrees with a drop whenever the first file qualifies. */
  lemma PickerLooksAtFirstOnly(files: seq<File>)
    requires |files| > 0
    ensures !IsParquetName(files[0].name) ==> PickerChoice(files) == Alert
    ensures IsParquetName(files[0].name) ==> PickerChoice(files) == DropChoice(files) == Select(files[0])
  {
    DropSelectsFirstParquet(files);
  }

  /** A later parquet file is selected by a drop but not by the picker. */
  lemma PickerIgnoresLaterFiles()
    ensures var files := [File("notes.txt", []), File("sales.parquet", [])];
      PickerChoice(files) == Alert && DropChoice(files) == Select(File("sales.parquet", []))
  {
    var files := [File("notes.txt", []), File("sales.parquet", [])];
    assert !EndsWith("notes.txt", ".parquet");
    assert EndsWith("sales.parquet", ".parquet");
    DropSelectsFirstParquet(files);
  }

  /** The suffix test is case-sensitive. */
  lemma UpperCaseExtensionRejected()
    ensures !IsParquetName("x.PARQUET")
    ensures IsParquetName("x.parquet")
  {
    assert "x.PARQUET"[1..] != ".parquet" by {
      assert "x.PARQUET"[1..][1] == 'P';
    }
  }

  /** The component's one piece of state: whether a drag is over the zone. */
  class DropZoneState {
    var isDragging: bool

    constructor ()
      ensures !isDragging
    {
      isDragging := false;
    }

    /** `handleDragOver`. */
    method DragOver()
      modifies this
      ensures isDragging
    {
      isDragging := true;
    }

    /** `handleDragLeave`. */
    method DragLeave()
      modifies this
      ensures !isDragging
    {
      isDragging := false;
    }

    /** `handleDrop`: the highlight goes off and the drop's choice is made. */
    method Drop(files: seq<File>) returns (choice: Choice)
      modifies this
      ensures !isDragging
      ensures choice == DropChoice(files)
    {
      isDragging := false;
      choice := DropChoice(files);
    }
  }
}
