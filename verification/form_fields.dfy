/** Two field components of the tool form: the multi-select
    (src/components/form/fields/multi-select.tsx) and the file upload
    (src/components/form/fields/file-upload.tsx). */
module FormFields {
  import opened Common
  import opened Text

  // ----- multi-select -----------------------------------------------------------------

  /** The loosely typed value a multi-select may be handed. */
  datatype Raw = RArray(items: seq<string>) | RNull | RUndefined | RString(s: string) | ROther

  /** `safeValue`: arrays pass through; a non-empty string becomes a
      one-element list; everything else is the empty list. */
  function SafeValue(v: Raw): (r: seq<string>)
    ensures v.RArray? ==> r == v.items
    ensures v.RString? && v.s != "" ==> r == [v.s]
    ensures !v.RArray? && !(v.RString? && v.s != "") ==> r == []
  {
    match v
    case RArray(items) => items
    case RString(s) => if s != "" then [s] else []
    case _ => []
  }

  /** Normalising is idempotent: handing the normalised list back in
      changes nothing. */
  lemma SafeValueIdempotent(v: Raw)
    ensures SafeValue(RArray(SafeValue(v))) == SafeValue(v)
  {
  }

  datatype Choice = Choice(value: string, disabled: bool)

  /** A click on an option: a disabled one does nothing; any other flips
      its membership and hands the new list to `onChange`. */
  function Click(selected: seq<string>, option: Choice): (r: (seq<string>, Option<seq<string>>))
    ensures option.disabled ==> r == (selected, None)
    ensures !option.disabled ==> r.1 == Some(r.0)
    ensures !option.disabled ==> (option.value in r.0 <==> option.value !in selected)
    ensures forall x :: x != option.value ==> (x in r.0 <==> x in selected)
    ensures !option.disabled && option.value !in selected ==> r.0 == selected + [option.value]
    ensures !option.disabled && option.value in selected ==> KeptInOrder(r.0, selected, IsNot(option.value))
  {
    if option.disabled then (selected, None)
    else
      var next := Toggle(selected, option.value);
      (next, Some(next))
  }

  /** Two clicks on an enabled, unselected option restore the list. */
  lemma ClickTwice(selected: seq<string>, option: Choice)
    requires !option.disabled && option.value !in selected
    ensures Click(Click(selected, option).0, option).0 == selected
  {
    ToggleTwice(selected, option.value);
  }

  // ----- file upload -------------------------------------------------------------------

  datatype FileInfo = FileInfo(name: string, size: int)

  /** The field's value: nothing (null or undefined), one file, or a list. */
  datatype FileValue = NoFile | OneFile(file: FileInfo) | ManyFiles(files: seq<FileInfo>)

  const DefaultMaxSizeMB := 10
  const DefaultMultiple := false

  /** `files`: a missing value is no files, a list passes through, one
      file is wrapped. */
  function Files(v: FileValue): (r: seq<FileInfo>)
    ensures v.NoFile? ==> r == []
    ensures v.OneFile? ==> r == [v.file]
    ensures v.ManyFiles? ==> r == v.files
  {
    match v
    case NoFile => []
    case OneFile(f) => [f]
    case ManyFiles(fs) => fs
  }

  function Limit(maxSizeMB: int): int {
    maxSizeMB * 1024 * 1024
  }

  datatype DropResult = DropResult(error: Option<string>, emitted: Option<FileValue>)

  const Rejected := "Some files were rejected. Please check file type and size."

  function TooLarge(maxSizeMB: int): string {
    "Files must be smaller than " + IntToString(maxSizeMB) + "MB"
  }

  function Oversized(files: seq<FileInfo>, maxSizeMB: int): (r: seq<FileInfo>)
    ensures forall f :: f in r <==> f in files && f.size > Limit(maxSizeMB)
  {
    Filter(files, (f: FileInfo) => f.size > Limit(maxSizeMB))
  }

  /** `onDrop`: any rejected file, or any accepted file over the limit,
      sets the matching error and emits nothing; otherwise the error is
      cleared and the files (multiple) or the first file or null (single)
      are emitted. */
  function OnDrop(accepted: seq<FileInfo>, rejected: nat, maxSizeMB: int, multiple: bool): (r: DropResult)
    ensures rejected > 0 ==> r == DropResult(Some(Rejected), None)
    ensures rejected == 0 && (exists f :: f in accepted && f.size > Limit(maxSizeMB)) ==>
              r == DropResult(Some(TooLarge(maxSizeMB)), None)
    ensures r.emitted.Some? <==> rejected == 0 && forall f :: f in accepted ==> f.size <= Limit(maxSizeMB)
    ensures r.emitted.Some? ==> r.error.None?
    ensures r.emitted.Some? && multiple ==> r.emitted.value == ManyFiles(accepted)
    ensures r.emitted.Some? && !multiple ==>
              r.emitted.value == if |accepted| > 0 then OneFile(accepted[0]) else NoFile
  {
    if rejected > 0 then DropResult(Some(Rejected), None)
    else if |Oversized(accepted, maxSizeMB)| > 0 then
      assert Oversized(accepted, maxSizeMB)[0] in Oversized(accepted, maxSizeMB);
      DropResult(Some(TooLarge(maxSizeMB)), None)
    else
      assert forall f :: f in accepted ==> f !in Oversized(accepted, maxSizeMB);
      DropResult(None, Some(if multiple then ManyFiles(accepted)
                            else if |accepted| > 0 then OneFile(accepted[0]) else NoFile))
  }

  /** Whatever a drop emits, read back as the field's files, is the
      accepted list (multiple) or at most its first file (single), and
      every file in it is within the limit. */
  lemma DropEmitsAccepted(accepted: seq<FileInfo>, rejected: nat, maxSizeMB: int, multiple: bool)
    requires OnDrop(accepted, rejected, maxSizeMB, multiple).emitted.Some?
    ensures var files := Files(OnDrop(accepted, rejected, maxSizeMB, multiple).emitted.value);
            && (multiple ==> files == accepted)
            && (!multiple ==> files == accepted[..if |accepted| > 0 then 1 else 0])
            && forall f :: f in files ==> f.size <= Limit(maxSizeMB)
  {
  }

  /** `removeFile`: in multiple mode the file at the index goes (by
      `splice`'s rules) and an emptied list becomes null; in single mode
      the value becomes null. */
  function RemoveFile(v: FileValue, index: int, multiple: bool): (r: FileValue)
    ensures !multiple ==> r == NoFile
    ensures multiple && 0 <= index < |Files(v)| ==>
              Files(r) == Files(v)[..index] + Files(v)[index + 1..]
    ensures multiple ==> (r == NoFile <==> |SpliceOne(Files(v), index)| == 0)
  {
    if multiple then
      var rest := SpliceOne(Files(v), index);
      if |rest| > 0 then ManyFiles(rest) else NoFile
    else NoFile
  }

  /** Removing the file at an index and putting it back there restores
      the list. */
  lemma RemoveFileInverse(v: FileValue, index: int)
    requires 0 <= index < |Files(v)|
    ensures var rest := Files(RemoveFile(v, index, true));
            Files(v) == rest[..index] + [Files(v)[index]] + rest[index..]
  {
    var fs := Files(v);
    var rest := Files(RemoveFile(v, index, true));
    assert rest == fs[..index] + fs[index + 1..];
    assert rest[..index] == fs[..index];
    assert rest[index..] == fs[index + 1..];
    assert fs[..index + 1] == fs[..index] + [fs[index]];
    assert fs == fs[..index + 1] + fs[index + 1..];
  }

  // ----- the accept string ------------------------------------------------------------

  /** One entry of the dropzone's accept map: '.ext' stands for the type
      'application/ext' with that extension, anything else is a type with
      no extension list. */
  function AcceptEntry(part: string): (string, seq<string>) {
    var t := Trim(part);
    if StartsWith(t, ".") then ("application/" + t[1..], [t]) else (t, [])
  }

  function AcceptEntries(parts: seq<string>): (r: seq<(string, seq<string>)>)
    ensures |r| == |parts|
    ensures forall i :: 0 <= i < |parts| ==> r[i] == AcceptEntry(parts[i])
  {
    seq(|parts|, i requires 0 <= i < |parts| => AcceptEntry(parts[i]))
  }

  /** The `accept` option: none for a missing or empty string; otherwise
      the comma-separated entries, a later one overwriting an earlier one
      with the same key. */
  function AcceptMap(accept: Option<string>): (r: Option<map<string, seq<string>>>)
    ensures accept.None? || accept == Some("") ==> r.None?
    ensures accept.Some? && accept.value != "" ==> r == Some(ToMap(AcceptEntries(Split(accept.value, ','))))
  {
    if accept.Some? && accept.value != "" then Some(ToMap(AcceptEntries(Split(accept.value, ','))))
    else None
  }

  /** The entry at `i` is the last one with its key. */
  predicate LastEntry(parts: seq<string>, i: int) {
    0 <= i < |parts| && forall j :: i < j < |parts| ==> AcceptEntry(parts[j]).0 != AcceptEntry(parts[i]).0
  }

  /** Every entry of the accept string has a key, and the last entry with
      a given key decides its extensions. */
  lemma AcceptKeys(accept: string, i: int)
    requires accept != "" && LastEntry(Split(accept, ','), i)
    ensures var e := AcceptEntry(Split(accept, ',')[i]);
            e.0 in AcceptMap(Some(accept)).value && AcceptMap(Some(accept)).value[e.0] == e.1
  {
    EntriesLastWins(Split(accept, ','), i);
  }

  lemma EntriesLastWins(parts: seq<string>, i: int)
    requires LastEntry(parts, i)
    ensures AcceptEntry(parts[i]).0 in ToMap(AcceptEntries(parts))
    ensures ToMap(AcceptEntries(parts))[AcceptEntry(parts[i]).0] == AcceptEntry(parts[i]).1
  {
    var entries := AcceptEntries(parts);
    assert forall j :: i < j < |entries| ==> entries[j].0 != entries[i].0;
    ToMapLastWins(entries, i);
  }

  /** A single extension gives one entry keyed by the application type. */
  lemma SingleExtension(ext: string)
    requires ',' !in ext && |ext| > 0 && !IsSpace(ext[0]) && !IsSpace(ext[|ext| - 1]) && ext[0] == '.'
    ensures AcceptMap(Some(ext)) == Some(map["application/" + ext[1..] := [ext]])
  {
    SplitWithout(ext, ',');
    DotEntry(ext);
    var es := AcceptEntries([ext]);
    assert es == [AcceptEntry(ext)];
    assert es[..0] == [];
    assert ToMap(es) == ToMap([])[AcceptEntry(ext).0 := AcceptEntry(ext).1];
  }

  lemma DotEntry(ext: string)
    requires |ext| > 0 && !IsSpace(ext[0]) && !IsSpace(ext[|ext| - 1]) && ext[0] == '.'
    ensures AcceptEntry(ext) == ("application/" + ext[1..], [ext])
  {
    TrimNoSpaceEnds(ext);
    assert StartsWith(ext, ".");
  }

  lemma TrimNoSpaceEnds(s: string)
    requires |s| > 0 && !IsSpace(s[0]) && !IsSpace(s[|s| - 1])
    ensures Trim(s) == s
  {
    assert TrimEnd(s) == s;
    var t := TrimStart(s);
    assert t == s[|s| - |t|..];
  }
}
