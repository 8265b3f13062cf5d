/**
 * main: the parsed command-line namespace is reshaped into the three info
 * dicts and the two row lists, which are passed to generate_forensic_report.
 */
module Cli {
  import opened Wrappers
  import opened PyStr
  import opened Report

  /**
   * The namespace argparse returns, defaults already filled in. `timeline`
   * and `notableFiles` hold one string per token given after the flag.
   */
  datatype Args = Args(
    caseNumber: string, investigator: string, date: string, description: string,
    imageType: string, imageHash: string, acquisitionDate: string, deviceModel: string,
    capacity: string,
    fsType: string, volumeLabel: string, fsCreated: string, lastMounted: string,
    timeline: seq<string>, notableFiles: seq<string>,
    output: string)

  // ------------------------------------------------------------ the info dicts

  /** case_info: exactly the keys the Case table reads. */
  function CaseInfo(args: Args): (d: Dict)
    ensures forall k :: k in d <==> k in CaseKeys
  {
    map["case_number" := args.caseNumber, "investigator" := args.investigator,
        "date" := args.date, "description" := args.description]
  }

  /** image_info: exactly the keys the Image table reads; --capacity is stored as total_capacity. */
  function ImageInfo(args: Args): (d: Dict)
    ensures forall k :: k in d <==> k in ImageKeys
    ensures "capacity" !in d && d["total_capacity"] == args.capacity
  {
    map["image_type" := args.imageType, "image_hash" := args.imageHash,
        "acquisition_date" := args.acquisitionDate, "device_model" := args.deviceModel,
        "total_capacity" := args.capacity]
  }

  /** file_system_info: exactly the keys the File System table reads; --fs-created is stored as created_date. */
  function FileSystemInfo(args: Args): (d: Dict)
    ensures forall k :: k in d <==> k in FsKeys
    ensures "fs_created" !in d && d["created_date"] == args.fsCreated
  {
    map["fs_type" := args.fsType, "volume_label" := args.volumeLabel,
        "created_date" := args.fsCreated, "last_mounted" := args.lastMounted]
  }

  // ------------------------------------------------------------ token splitting

  /**
   * `event.split(',', 1)`: cut at the first comma only. With a comma the
   * row has two parts, the first comma-free and the second holding the
   * rest, commas included; without one it is the token alone.
   */
  function TimelineEntry(token: string): (row: Row)
    ensures ',' in token ==> |row| == 2 && ',' !in row[0] && row[0] + [','] + row[1] == token
    ensures ',' !in token ==> row == [token]
  {
    SplitOnce(token, ',');
    Split(token, ',', 1)
  }

  /**
   * `file.split(',')`: cut at every comma. The parts are comma-free, there
   * is one more of them than the token has commas, and joining them with
   * commas gives the token back. No number of parts is enforced.
   */
  function NotableFileEntry(token: string): (row: Row)
    ensures |row| == Count(token, ',') + 1
    ensures SepFree(row, ',')
    ensures Join(row, ',') == token
  {
    SplitUnlimited(token, ',', -1);
    Split(token, ',', -1)
  }

  /** A date/time without a comma and any event text come back as the two fields. */
  lemma TimelineEntryInverse(when: string, event: string)
    requires ',' !in when
    ensures TimelineEntry(when + [','] + event) == [when, event]
  {
    var token := when + [','] + event;
    FindAfterSepFree(when, event, ',');
    assert token[..|when|] == when && token[|when| + 1..] == event;
  }

  /** Comma-free fields joined with commas come back as the same fields. */
  lemma NotableFileEntryInverse(fields: Row)
    requires 1 <= |fields| && SepFree(fields, ',')
    ensures NotableFileEntry(Join(fields, ',')) == fields
  {
    SplitJoin(fields, ',', -1);
  }

  /**
   * A row of one or two parts, the first comma-free, that joins back to the
   * token is the token's timeline split: the contract of ParseTimeline
   * pins each row down exactly.
   */
  lemma TimelineEntryUnique(token: string, row: Row)
    requires 1 <= |row| <= 2 && ',' !in row[0] && Join(row, ',') == token
    ensures row == TimelineEntry(token)
  {
    if |row| == 2 {
      assert Join(row[1..], ',') == row[1];
      TimelineEntryInverse(row[0], row[1]);
    }
  }

  /** A token with only three fields is not refused: its row has three parts. */
  lemma NotableFileThreeFields()
    ensures NotableFileEntry("notes.txt,/eviD,1024") == ["notes.txt", "/eviD", "1024"]
  {
    var fields := ["notes.txt", "/eviD", "1024"];
    assert Join(fields[2..], ',') == "1024";
    assert Join(fields[1..], ',') == "/eviD,1024";
    assert Join(fields, ',') == "notes.txt,/eviD,1024";
    NotableFileEntryInverse(fields);
  }

  /** `[event.split(',', 1) for event in args.timeline]`. */
  function ParseTimeline(tokens: seq<string>): (rows: seq<Row>)
    ensures |rows| == |tokens|
    ensures forall i :: 0 <= i < |tokens| ==>
      && 1 <= |rows[i]| <= 2
      && ',' !in rows[i][0]
      && Join(rows[i], ',') == tokens[i]
  {
    var rows := seq(|tokens|, i requires 0 <= i < |tokens| => TimelineEntry(tokens[i]));
    assert forall i :: 0 <= i < |tokens| ==> Join(rows[i], ',') == tokens[i] by {
      forall i | 0 <= i < |tokens| ensures Join(rows[i], ',') == tokens[i] {
        JoinSplit(tokens[i], ',', 1);
      }
    }
    rows
  }

  /** `[file.split(',') for file in args.notable_files]`. */
  function ParseNotableFiles(tokens: seq<string>): (rows: seq<Row>)
    ensures |rows| == |tokens|
    ensures forall i :: 0 <= i < |tokens| ==>
      && |rows[i]| == Count(tokens[i], ',') + 1
      && SepFree(rows[i], ',')
      && Join(rows[i], ',') == tokens[i]
  {
    seq(|tokens|, i requires 0 <= i < |tokens| => NotableFileEntry(tokens[i]))
  }

  // ------------------------------------------------------------ the pipeline

  /** The Case table shows each case flag under its label. */
  lemma CaseRowsFromArgs(args: Args)
    ensures CaseTable(CaseInfo(args)) == Success(
      [["Case Number:", args.caseNumber], ["Investigator:", args.investigator],
       ["Date:", args.date], ["Description:", args.description]])
  {
    var r := CaseTable(CaseInfo(args));
    assert r.Success?;
    assert r.value == [["Case Number:", args.caseNumber], ["Investigator:", args.investigator],
                       ["Date:", args.date], ["Description:", args.description]];
  }

  /** The Image table shows each image flag under its label, --capacity as Total Capacity. */
  lemma ImageRowsFromArgs(args: Args)
    ensures ImageTable(ImageInfo(args)) == Success(
      [["Image Type:", args.imageType], ["Image Hash:", args.imageHash],
       ["Acquisition Date:", args.acquisitionDate], ["Device Model:", args.deviceModel],
       ["Total Capacity:", args.capacity]])
  {
    var r := ImageTable(ImageInfo(args));
    assert r.Success?;
    assert r.value == [["Image Type:", args.imageType], ["Image Hash:", args.imageHash],
                       ["Acquisition Date:", args.acquisitionDate], ["Device Model:", args.deviceModel],
                       ["Total Capacity:", args.capacity]];
  }

  /** The File System table shows each file-system flag under its label, --fs-created as Created Date. */
  lemma FsRowsFromArgs(args: Args)
    ensures FsTable(FileSystemInfo(args)) == Success(
      [["File System Type:", args.fsType], ["Volume Label:", args.volumeLabel],
       ["Created Date:", args.fsCreated], ["Last Mounted:", args.lastMounted]])
  {
    var r := FsTable(FileSystemInfo(args));
    assert r.Success?;
    assert r.value == [["File System Type:", args.fsType], ["Volume Label:", args.volumeLabel],
                       ["Created Date:", args.fsCreated], ["Last Mounted:", args.lastMounted]];
  }

  /**
   * Lines 84-105 of main: build the dicts, split the tokens and generate the
   * report. The dicts hold every key the report reads, so no KeyError is
   * raised. The document is the report layout: the title block, then each
   * section heading in the fixed order directly followed by its table. Each
   * flag's value shows under its label, and the timeline and file rows come
   * in the order the tokens were given.
   */
  method BuildReport(args: Args) returns (doc: Document)
    ensures doc.path == args.output
    ensures doc.elements == Layout(CaseTable(CaseInfo(args)).value, ImageTable(ImageInfo(args)).value,
                                   FsTable(FileSystemInfo(args)).value,
                                   ParseTimeline(args.timeline), ParseNotableFiles(args.notableFiles))
    ensures |doc.elements| == 18 && doc.elements[..4] == TitleBlock && Headings(doc.elements) == SectionTitles
    ensures forall j :: 0 <= j < 5 ==> doc.elements[4 + 3 * j] == Heading(SectionTitles[j])
    ensures doc.elements[5] == Table([["Case Number:", args.caseNumber], ["Investigator:", args.investigator],
                                      ["Date:", args.date], ["Description:", args.description]], false)
    ensures doc.elements[8] == Table([["Image Type:", args.imageType], ["Image Hash:", args.imageHash],
                                      ["Acquisition Date:", args.acquisitionDate],
                                      ["Device Model:", args.deviceModel],
                                      ["Total Capacity:", args.capacity]], false)
    ensures doc.elements[11] == Table([["File System Type:", args.fsType], ["Volume Label:", args.volumeLabel],
                                       ["Created Date:", args.fsCreated], ["Last Mounted:", args.lastMounted]], false)
    ensures doc.elements[14] == Table([TimelineHeader] + ParseTimeline(args.timeline), true)
    ensures doc.elements[17] == Table([FilesHeader] + ParseNotableFiles(args.notableFiles), true)
  {
    var case_info := CaseInfo(args);
    var image_info := ImageInfo(args);
    var file_system_info := FileSystemInfo(args);
    var timeline := ParseTimeline(args.timeline);
    var notable_files := ParseNotableFiles(args.notableFiles);
    CaseRowsFromArgs(args);
    ImageRowsFromArgs(args);
    FsRowsFromArgs(args);
    var r := GenerateReport(case_info, image_info, file_system_info, timeline, notable_files, args.output);
    doc := r.value;
    ReportStructure(CaseTable(case_info).value, ImageTable(image_info).value, FsTable(file_system_info).value,
                    timeline, notable_files);
  }
}
