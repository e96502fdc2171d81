/** `service` (look-up by group) and `search_schedule_by_teacher`: pick the
    workbook by name, scan it, assemble the reply text and hand it to
    `form_schedule`. The drive listing and the downloaded workbook are inputs:
    `files` is what the listing returns and `download` maps a file id to its
    decoded workbook. */
module Service {
  import opened Outcomes
  import opened PyText
  import opened Workbook
  import opened Extractor
  import opened Renderer
  import opened Seqs

  /** The reply when no file carries the requested name. */
  const FileNotFound: string := "Файл не найден."

  /** The reply when the group scan finds nothing. */
  const NoGroupLessons: string := "Неправильно введен номер группы или занятий нет."

  /** The reply when the teacher scan finds nothing. */
  const NoTeacherLessons: string := "Неправильно введены данные или занятий нет."

  const Extension: string := ".xlsx"

  /** The labels of an entry's room and counterpart: a key sign (U+1F511) and a
      briefcase sign (U+1F4BC). */
  const RoomLabel: string := "\U{1F511} Кабинет: "
  const TeacherLabel: string := "\U{1F4BC} Преподаватель: "
  const GroupLabel: string := "\U{1F4BC} Группа: "

  // ----- choosing the file -----

  /** The first file of the listing named `fileName`. */
  function FirstNamed(files: seq<DriveFile>, fileName: string): Option<DriveFile> {
    if files == [] then None
    else if files[0].name == fileName then Some(files[0])
    else FirstNamed(files[1..], fileName)
  }

  /** `FirstNamed` finds nothing exactly when no file has the name, and otherwise
      finds the file at the first position that has it. */
  lemma {:induction false} FirstNamedSpec(files: seq<DriveFile>, fileName: string)
    ensures FirstNamed(files, fileName).None? <==> forall k :: 0 <= k < |files| ==> files[k].name != fileName
    ensures FirstNamed(files, fileName).Some? ==>
      exists k :: 0 <= k < |files| && files[k] == FirstNamed(files, fileName).value
        && files[k].name == fileName && (forall j :: 0 <= j < k ==> files[j].name != fileName)
  {
    if files != [] && files[0].name != fileName {
      var rest := files[1..];
      FirstNamedSpec(rest, fileName);
      forall k | 1 <= k < |files| ensures files[k] == rest[k - 1] {
      }
      if FirstNamed(rest, fileName).Some? {
        var k :| 0 <= k < |rest| && rest[k] == FirstNamed(rest, fileName).value
          && rest[k].name == fileName && (forall j :: 0 <= j < k ==> rest[j].name != fileName);
        assert files[k + 1] == rest[k];
      }
    }
  }

  /** The search loop of both operations: the first file named `name + '.xlsx'`,
      the loop leaving at the first hit. */
  method SelectFile(files: seq<DriveFile>, name: string) returns (chosen: Option<DriveFile>)
    ensures chosen == FirstNamed(files, name + Extension)
  {
    var chosenFileName := name;
    chosen := None;
    var k := 0;
    while k < |files|
      invariant k <= |files|
      invariant FirstNamed(files, name + Extension) == FirstNamed(files[k..], name + Extension)
    {
      var file := files[k];
      assert files[k..][1..] == files[k + 1..];
      if file.name == chosenFileName + Extension {
        chosen := Some(file);
        break;
      }
      k := k + 1;
    }
  }

  // ----- assembling the message -----

  /** The room as the reply prints it: a float room is cut to an integer by `int()`. */
  function RoomValue(room: Cell): (r: Cell)
    ensures !r.Float?
  {
    if room.Float? then Int(Trunc(room.value)) else room
  }

  /** A room that is not a float is printed as it is; a float room is printed as
      the integer nearer zero, which is its own value when the float is whole. */
  lemma RoomValueSpec(room: Cell)
    ensures !room.Float? ==> RoomValue(room) == room
    ensures room.Float? ==> RoomValue(room).Int?
    ensures room.Float? && 0.0 <= room.value ==>
      0 <= RoomValue(room).i && RoomValue(room).i as real <= room.value < RoomValue(room).i as real + 1.0
    ensures room.Float? && room.value < 0.0 ==>
      RoomValue(room).i <= 0 && RoomValue(room).i as real - 1.0 < room.value <= RoomValue(room).i as real
    ensures room.Float? && room.value == room.value.Floor as real ==> RoomValue(room).i as real == room.value
  {
  }

  /** The line of the reply that names the lesson's counterpart. */
  function CounterpartLine(x: Slot): string {
    match x
    case GroupSlot(_, _, teacher, _) => TeacherLabel + CellText(teacher)
    case TeacherSlot(_, _, group, _, _) => GroupLabel + CellText(group)
  }

  /** One element of the `message` list:
      `f'\n{title},🔑 Кабинет: {room},💼 Преподаватель: {teacher}\n'`, or
      `... Группа: {group}` for a teacher look-up. */
  function EntryText(day: string, room: string, counterpart: string): string {
    "\n" + day + "," + RoomLabel + room + "," + counterpart + "\n"
  }

  /** The entry of one slot. */
  function Entry(x: Slot): string {
    EntryText(x.day, CellText(RoomValue(x.room)), CounterpartLine(x))
  }

  /** `''.join(parts)`. */
  function Concat(parts: seq<string>): string {
    if parts == [] then "" else parts[0] + Concat(parts[1..])
  }

  /** The entries of the slots, in order. */
  function Entries(slots: seq<Slot>): (r: seq<string>)
    ensures |r| == |slots|
  {
    if slots == [] then [] else [Entry(slots[0])] + Entries(slots[1..])
  }

  /** `message2`: the header line, then the joined entries with every comma
      turned into a line break. */
  function Message(header: string, slots: seq<Slot>): string {
    header + "\n" + ReplaceChar(Concat(Entries(slots)), ',', '\n')
  }

  /** One pass of the message loop: the entry of `x`, its float room cut to an
      integer. */
  method FormatEntry(x: Slot) returns (entry: string)
    ensures entry == Entry(x)
  {
    var roomNumber := x.room;
    if roomNumber.Float? {
      roomNumber := Int(Trunc(roomNumber.value));
    }
    var counterpart := if x.GroupSlot? then TeacherLabel + CellText(x.teacher) else GroupLabel + CellText(x.group);
    entry := EntryText(x.day, CellText(roomNumber), counterpart);
  }

  /** The message loop of both operations: one entry per slot, in order. */
  method AssembleMessage(header: string, slots: seq<Slot>) returns (message2: string)
    ensures message2 == Message(header, slots)
  {
    var message: seq<string> := [];
    var k := 0;
    while k < |slots|
      invariant k <= |slots|
      invariant message == Entries(slots[..k])
    {
      var entry := FormatEntry(slots[k]);
      TakeNext(slots, k);
      EntriesSnoc(slots[..k], slots[k]);
      message := message + [entry];
      k := k + 1;
    }
    TakeAll(slots);
    message2 := header + "\n" + ReplaceChar(Concat(message), ',', '\n');
  }

  lemma {:induction false} EntriesSnoc(slots: seq<Slot>, x: Slot)
    ensures Entries(slots + [x]) == Entries(slots) + [Entry(x)]
  {
    if slots != [] {
      assert (slots + [x])[1..] == slots[1..] + [x];
      EntriesSnoc(slots[1..], x);
    } else {
      assert [] + [x] == [x];
    }
  }

  // ----- the lines of the message -----

  /** A field that neither the comma replacement nor the line split cuts. */
  predicate Unbroken(text: string) {
    ',' !in text && '\n' !in text
  }

  /** The slot's printed fields are all unbroken. */
  predicate PlainSlot(x: Slot) {
    Unbroken(x.day) && Unbroken(CellText(RoomValue(x.room))) && Unbroken(CounterpartLine(x))
  }

  /** Every slot's printed fields are unbroken. */
  predicate PlainSlots(slots: seq<Slot>) {
    forall k :: 0 <= k < |slots| ==> PlainSlot(slots[k])
  }

  /** The lines one entry becomes: an empty line, the day, the room, the counterpart. */
  function EntryLines(x: Slot): seq<string> {
    ["", x.day, RoomLabel + CellText(RoomValue(x.room)), CounterpartLine(x)]
  }

  /** The lines of all entries, in order. */
  function BlockLines(slots: seq<Slot>): (r: seq<string>)
    ensures |r| == 4 * |slots|
  {
    if slots == [] then [] else EntryLines(slots[0]) + BlockLines(slots[1..])
  }

  /** `'\n'.join([a] + rest)` for a non-empty `rest`. */
  lemma JoinCons(a: string, rest: seq<string>)
    requires rest != []
    ensures Join([a] + rest) == a + "\n" + Join(rest)
  {
    assert ([a] + rest)[1..] == rest;
  }

  /** Appending a piece without commas. */
  lemma ReplacedPlain(a: string, b: string)
    requires ',' !in b
    ensures ReplaceChar(a + b, ',', '\n') == ReplaceChar(a, ',', '\n') + b
  {
    ReplaceCharAppend(a, b, ',', '\n');
    ReplaceCharAbsent(b, ',', '\n');
  }

  /** Appending a comma appends a break. */
  lemma ReplacedComma(a: string)
    ensures ReplaceChar(a + ",", ',', '\n') == ReplaceChar(a, ',', '\n') + "\n"
  {
    ReplaceCharAppend(a, ",", ',', '\n');
  }

  /** With commas turned into breaks, the comma-separated fields of an entry
      become lines of their own. */
  lemma FieldsReplaced(day: string, tag: string, room: string, counterpart: string)
    requires ',' !in day && ',' !in tag && ',' !in room && ',' !in counterpart
    ensures ReplaceChar("\n" + day + "," + tag + room + "," + counterpart + "\n", ',', '\n')
      == "\n" + day + "\n" + tag + room + "\n" + counterpart + "\n"
  {
    ReplaceCharAbsent("\n", ',', '\n');
    ReplacedPlain("\n", day);
    ReplacedComma("\n" + day);
    ReplacedPlain("\n" + day + ",", tag);
    ReplacedPlain("\n" + day + "," + tag, room);
    ReplacedComma("\n" + day + "," + tag + room);
    ReplacedPlain("\n" + day + "," + tag + room + ",", counterpart);
    ReplacedPlain("\n" + day + "," + tag + room + "," + counterpart, "\n");
  }

  /** With commas turned into breaks, an entry of unbroken fields is its four
      lines, each followed by a break. */
  lemma EntryTextReplaced(day: string, room: string, counterpart: string)
    requires ',' !in day && ',' !in room && ',' !in counterpart
    ensures ReplaceChar(EntryText(day, room, counterpart), ',', '\n')
      == "\n" + day + "\n" + (RoomLabel + room) + "\n" + counterpart + "\n"
  {
    assert ',' !in RoomLabel;
    FieldsReplaced(day, RoomLabel, room, counterpart);
    ConcatAssoc("\n" + day + "\n", RoomLabel, room);
  }

  /** Joining an entry's four lines in front of further lines. */
  lemma JoinEntryLines(day: string, room: string, counterpart: string, rest: seq<string>)
    requires rest != []
    ensures Join(["", day, room, counterpart] + rest)
      == "\n" + day + "\n" + room + "\n" + counterpart + "\n" + Join(rest)
  {
    var l3 := [counterpart] + rest;
    var l2 := [room] + l3;
    var l1 := [day] + l2;
    assert ["", day, room, counterpart] + rest == [""] + l1;
    JoinCons(counterpart, rest);
    JoinCons(room, l3);
    JoinCons(day, l2);
    JoinCons("", l1);
  }

  /** The lines of the first entry come first. */
  lemma BlockLinesCons(slots: seq<Slot>)
    requires slots != []
    ensures BlockLines(slots) + [""] == EntryLines(slots[0]) + (BlockLines(slots[1..]) + [""])
  {
  }

  /** The joined entries, commas turned into breaks, are the entries' lines
      joined, with a final break. */
  lemma {:induction false} EntriesJoined(slots: seq<Slot>)
    requires PlainSlots(slots)
    ensures ReplaceChar(Concat(Entries(slots)), ',', '\n') == Join(BlockLines(slots) + [""])
  {
    if slots == [] {
      assert BlockLines(slots) + [""] == [""];
    } else {
      var x := slots[0];
      var rest := BlockLines(slots[1..]) + [""];
      EntriesJoined(slots[1..]);
      assert Concat(Entries(slots)) == Entry(x) + Concat(Entries(slots[1..]));
      ReplaceCharAppend(Entry(x), Concat(Entries(slots[1..])), ',', '\n');
      EntryTextReplaced(x.day, CellText(RoomValue(x.room)), CounterpartLine(x));
      BlockLinesCons(slots);
      JoinEntryLines(x.day, RoomLabel + CellText(RoomValue(x.room)), CounterpartLine(x), rest);
    }
  }

  /** `header + '\n' + ...` is the header line joined in front of the entries' lines. */
  lemma MessageJoined(header: string, slots: seq<Slot>)
    requires PlainSlots(slots)
    ensures Message(header, slots) == Join([header] + (BlockLines(slots) + [""]))
  {
    calc {
      Message(header, slots);
      header + "\n" + ReplaceChar(Concat(Entries(slots)), ',', '\n');
      { EntriesJoined(slots); }
      header + "\n" + Join(BlockLines(slots) + [""]);
      { JoinCons(header, BlockLines(slots) + [""]); }
      Join([header] + (BlockLines(slots) + [""]));
    }
  }


  /** The header and the entries' lines hold no break. */
  lemma MessageUnsplit(header: string, slots: seq<Slot>)
    requires '\n' !in header
    requires PlainSlots(slots)
    ensures Unsplit([header] + (BlockLines(slots) + [""]))
  {
    BlockLinesUnbroken(slots);
    UnsplitAppend(BlockLines(slots), [""]);
    UnsplitAppend([header], BlockLines(slots) + [""]);
  }

  /** Splitting a text joined from unbroken lines gives those lines back. */
  lemma SplitJoined(text: string, lines: seq<string>)
    requires |lines| >= 1 && Unsplit(lines) && text == Join(lines)
    ensures Split(text) == lines
  {
    SplitJoin(lines);
  }

  /** The message is the header line, then four lines per entry (an empty line,
      the day, the room, the counterpart), then an empty last line, whenever no
      printed field holds a comma or a line break. */
  lemma MessageLines(header: string, slots: seq<Slot>)
    requires '\n' !in header
    requires PlainSlots(slots)
    ensures Split(Message(header, slots)) == [header] + BlockLines(slots) + [""]
  {
    MessageUnsplit(header, slots);
    MessageJoined(header, slots);
    SplitJoined(Message(header, slots), [header] + (BlockLines(slots) + [""]));
    ConcatAssoc([header], BlockLines(slots), [""]);
  }

  /** No line holds a break. */
  predicate Unsplit(lines: seq<string>) {
    forall k :: 0 <= k < |lines| ==> '\n' !in lines[k]
  }

  lemma UnsplitAppend(a: seq<string>, b: seq<string>)
    requires Unsplit(a) && Unsplit(b)
    ensures Unsplit(a + b)
  {
    forall k | 0 <= k < |a + b| ensures '\n' !in (a + b)[k] {
      if k < |a| {
        assert (a + b)[k] == a[k];
      } else {
        assert (a + b)[k] == b[k - |a|];
      }
    }
  }

  /** No line of the entries holds a break. */
  lemma {:induction false} BlockLinesUnbroken(slots: seq<Slot>)
    requires PlainSlots(slots)
    ensures Unsplit(BlockLines(slots))
  {
    if slots != [] {
      var x := slots[0];
      assert PlainSlot(x);
      BlockLinesUnbroken(slots[1..]);
      assert '\n' !in RoomLabel;
      assert Unsplit(EntryLines(x));
      UnsplitAppend(EntryLines(x), BlockLines(slots[1..]));
    }
  }

  // ----- the replies -----

  /** The reply of `service`, or the exception it raises. */
  function GroupReply(files: seq<DriveFile>, download: string -> Book, name: string, group: string): Result<string, Fault> {
    match FirstNamed(files, name + Extension)
    case None => Ok(FileNotFound)
    case Some(file) =>
      var groupName := Upper(group);
      match Scan(ByGroup(groupName), download(file.id))
      case Failure(e) => Failure(e)
      case Ok(slots) =>
        if slots == [] then Ok(NoGroupLessons)
        else FormScheduleText(Message(Upper(groupName), slots))
  }

  /** The reply of `search_schedule_by_teacher`, or the exception it raises. */
  function TeacherReply(files: seq<DriveFile>, download: string -> Book, name: string, teacherName: string): Result<string, Fault> {
    match FirstNamed(files, name + Extension)
    case None => Ok(FileNotFound)
    case Some(file) =>
      match Scan(TeacherQuery(teacherName), download(file.id))
      case Failure(e) => Failure(e)
      case Ok(slots) =>
        if slots == [] then Ok(NoTeacherLessons)
        else FormScheduleText(Message(Capitalize(teacherName), slots))
  }

  /** With no file named `name + '.xlsx'` both replies are the not-found
      sentinel; with the file found and an empty scan, each reply is its own
      no-lessons sentinel. */
  lemma SentinelReplies(files: seq<DriveFile>, download: string -> Book, name: string, group: string, teacherName: string)
    ensures (forall k :: 0 <= k < |files| ==> files[k].name != name + Extension) ==>
      GroupReply(files, download, name, group) == Ok(FileNotFound)
      && TeacherReply(files, download, name, teacherName) == Ok(FileNotFound)
    ensures (exists k :: 0 <= k < |files| && files[k].name == name + Extension) ==>
      FirstNamed(files, name + Extension).Some?
    ensures (FirstNamed(files, name + Extension).Some?
      && Scan(ByGroup(Upper(group)), download(FirstNamed(files, name + Extension).value.id)) == Ok([])) ==>
      GroupReply(files, download, name, group) == Ok(NoGroupLessons)
    ensures (FirstNamed(files, name + Extension).Some?
      && Scan(TeacherQuery(teacherName), download(FirstNamed(files, name + Extension).value.id)) == Ok([])) ==>
      TeacherReply(files, download, name, teacherName) == Ok(NoTeacherLessons)
  {
    FirstNamedSpec(files, name + Extension);
  }

  /** Only the first file named `name + '.xlsx'` matters: the replies are those
      for a listing holding that file alone. */
  lemma FirstFileDecides(files: seq<DriveFile>, download: string -> Book, name: string, group: string, teacherName: string, k: nat)
    requires k < |files| && files[k].name == name + Extension
    requires forall j :: 0 <= j < k ==> files[j].name != name + Extension
    ensures GroupReply(files, download, name, group) == GroupReply([files[k]], download, name, group)
    ensures TeacherReply(files, download, name, teacherName) == TeacherReply([files[k]], download, name, teacherName)
  {
    FirstNamedSpec(files, name + Extension);
    var i :| 0 <= i < |files| && files[i] == FirstNamed(files, name + Extension).value
      && files[i].name == name + Extension && (forall j :: 0 <= j < i ==> files[j].name != name + Extension);
    assert i == k;
    assert FirstNamed([files[k]], name + Extension) == Some(files[k]);
  }

  /** The group header is `group.upper()`: upper-casing `group_name` a second
      time changes nothing. */
  lemma GroupReplyHeader(files: seq<DriveFile>, download: string -> Book, name: string, group: string, file: DriveFile, slots: seq<Slot>)
    requires FirstNamed(files, name + Extension) == Some(file)
    requires Scan(ByGroup(Upper(group)), download(file.id)) == Ok(slots) && slots != []
    ensures GroupReply(files, download, name, group) == FormScheduleText(Message(Upper(group), slots))
  {
    UpperIdempotent(group);
  }

  /** The message keeps its header line as it is, and no comma survives after it. */
  lemma MessageBodyNoComma(header: string, slots: seq<Slot>)
    ensures Message(header, slots)[..|header| + 1] == header + "\n"
    ensures ',' !in Message(header, slots)[|header| + 1..]
  {
    var body := ReplaceChar(Concat(Entries(slots)), ',', '\n');
    ReplaceCharAt(Concat(Entries(slots)), ',', '\n');
    assert Message(header, slots) == (header + "\n") + body;
    assert Message(header, slots)[|header| + 1..] == body;
  }

  /** The reply to a message of unbroken fields: it raises `KeyError(7)` exactly
      when some line of the message, the header included, names the class hour
      and some line starts with `7`, and
      otherwise it has the message's lines, each rendered. */
  lemma ReplyLines(header: string, slots: seq<Slot>)
    requires '\n' !in header
    requires PlainSlots(slots)
    ensures var lines := [header] + BlockLines(slots) + [""];
      FormScheduleText(Message(header, slots)).Failure? <==>
        ClassHourDay(lines) && exists k :: 0 <= k < |lines| && lines[k] != "" && lines[k][0] == '7'
    ensures var lines := [header] + BlockLines(slots) + [""];
      FormScheduleText(Message(header, slots)).Ok? ==>
        var out := Split(FormScheduleText(Message(header, slots)).value);
        |out| == |lines| &&
        forall k :: 0 <= k < |lines| ==> RenderLine(lines[k], ClassHourDay(lines)) == Ok(out[k])
  {
    MessageLines(header, slots);
    FormScheduleFails(Message(header, slots));
    FormScheduleRendered(Message(header, slots));
  }

  /** `service`. */
  method Service(files: seq<DriveFile>, download: string -> Book, name: string, group: string)
    returns (r: Result<string, Fault>)
    ensures r == GroupReply(files, download, name, group)
  {
    var chosenFile := SelectFile(files, name);
    if chosenFile.None? {
      return Ok(FileNotFound);
    }
    var groupName := Upper(group);
    var fileContent := download(chosenFile.value.id);
    var results := ProcessExcel(fileContent, groupName);
    if results.Failure? {
      return Failure(results.error);
    }
    if results.value == [] {
      return Ok(NoGroupLessons);
    }
    var message2 := AssembleMessage(Upper(groupName), results.value);
    r := FormSchedule(message2);
  }

  /** `search_schedule_by_teacher`. */
  method SearchScheduleByTeacher(files: seq<DriveFile>, download: string -> Book, name: string, teacherName: string)
    returns (r: Result<string, Fault>)
    ensures r == TeacherReply(files, download, name, teacherName)
  {
    var chosenFile := SelectFile(files, name);
    if chosenFile.None? {
      return Ok(FileNotFound);
    }
    var fileContent := download(chosenFile.value.id);
    var results := ProcessExcel2(fileContent, teacherName);
    if results.Failure? {
      return Failure(results.error);
    }
    if results.value == [] {
      return Ok(NoTeacherLessons);
    }
    var message2 := AssembleMessage(Capitalize(teacherName), results.value);
    r := FormSchedule(message2);
  }
}
