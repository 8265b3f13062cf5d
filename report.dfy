/**
 * generate_forensic_report: the list of flowables handed to the document
 * builder, and the table data behind each section. Styling, column widths
 * and rendering belong to the layout library and are not modelled; an
 * element records only what the report puts in it.
 */
module Report {
  import opened Wrappers

  type Row = seq<string>

  /** A Python dict from string keys to string values. */
  type Dict = map<string, string>

  /** Looking up a key a dict lacks raises KeyError. */
  datatype Error = KeyError(key: string)

  datatype Element =
    | Title(text: string)                  // Paragraph in the 'Title' style
    | Heading(text: string)                // Paragraph in the 'Heading2' style
    | Spacer(height: nat)                  // Spacer(1, height)
    | Table(rows: seq<Row>, header: bool)  // header: the first row is shaded as a header

  /** The document: the output path and the elements given to `build`. */
  datatype Document = Document(path: string, elements: seq<Element>)

  const ReportTitle := "FORENSIC REPORT GENERATOR "
  const Credits := "KIRANRAJ, HAARIESHRAJ,BHUVANESH"

  const CaseLabels := ["Case Number:", "Investigator:", "Date:", "Description:"]
  const CaseKeys := ["case_number", "investigator", "date", "description"]
  const ImageLabels := ["Image Type:", "Image Hash:", "Acquisition Date:", "Device Model:", "Total Capacity:"]
  const ImageKeys := ["image_type", "image_hash", "acquisition_date", "device_model", "total_capacity"]
  const FsLabels := ["File System Type:", "Volume Label:", "Created Date:", "Last Mounted:"]
  const FsKeys := ["fs_type", "volume_label", "created_date", "last_mounted"]

  const TimelineHeader: Row := ["Date/Time", "Event"]
  const FilesHeader: Row := ["Filename", "Path", "Size", "Last Modified"]

  const SectionTitles := ["Case Information", "Image Information", "File System Information",
                          "Timeline of Key Events", "Notable Files"]

  // ------------------------------------------------------------ table data

  /**
   * The literal `[[labels[0], info[keys[0]]], ...]`: one row per label with
   * the value looked up under the matching key. The rows are evaluated in
   * order, so the first key missing from `info` is the one that raises.
   */
  function LabelledRows(labels: seq<string>, keys: seq<string>, info: Dict): (r: Result<seq<Row>, Error>)
    requires |labels| == |keys|
    ensures r.Success? <==> forall k :: 0 <= k < |keys| ==> keys[k] in info
    ensures r.Success? ==>
      && |r.value| == |labels|
      && forall k :: 0 <= k < |labels| ==> r.value[k] == [labels[k], info[keys[k]]]
    ensures r.Failure? ==>
      exists j :: 0 <= j < |keys| && r.error == KeyError(keys[j]) && keys[j] !in info
                  && forall k :: 0 <= k < j ==> keys[k] in info
  {
    if |keys| == 0 then Success([])
    else if keys[0] !in info then Failure(KeyError(keys[0]))
    else
      var rest :- LabelledRows(labels[1..], keys[1..], info);
      Success([[labels[0], info[keys[0]]]] + rest)
  }

  /** case_data: four label/value rows in the fixed order. */
  function CaseTable(case_info: Dict): (r: Result<seq<Row>, Error>)
    ensures r.Success? <==> forall k :: k in CaseKeys ==> k in case_info
    ensures r.Success? ==>
      |r.value| == 4 && forall k :: 0 <= k < 4 ==> r.value[k] == [CaseLabels[k], case_info[CaseKeys[k]]]
  {
    LabelledRows(CaseLabels, CaseKeys, case_info)
  }

  /** image_data: five label/value rows in the fixed order. */
  function ImageTable(image_info: Dict): (r: Result<seq<Row>, Error>)
    ensures r.Success? <==> forall k :: k in ImageKeys ==> k in image_info
    ensures r.Success? ==>
      |r.value| == 5 && forall k :: 0 <= k < 5 ==> r.value[k] == [ImageLabels[k], image_info[ImageKeys[k]]]
  {
    LabelledRows(ImageLabels, ImageKeys, image_info)
  }

  /** fs_data: four label/value rows in the fixed order. */
  function FsTable(file_system_info: Dict): (r: Result<seq<Row>, Error>)
    ensures r.Success? <==> forall k :: k in FsKeys ==> k in file_system_info
    ensures r.Success? ==>
      |r.value| == 4 && forall k :: 0 <= k < 4 ==> r.value[k] == [FsLabels[k], file_system_info[FsKeys[k]]]
  {
    LabelledRows(FsLabels, FsKeys, file_system_info)
  }

  /** timeline_data: the header row, then the timeline rows as given. */
  function TimelineTable(timeline: seq<Row>): (r: seq<Row>)
    ensures |r| == 1 + |timeline| && r[0] == TimelineHeader
    ensures forall k :: 0 <= k < |timeline| ==> r[k + 1] == timeline[k]
  {
    [TimelineHeader] + timeline
  }

  /** files_data: the four-column header row, then the file rows as given. */
  function FilesTable(notable_files: seq<Row>): (r: seq<Row>)
    ensures |r| == 1 + |notable_files| && r[0] == FilesHeader && |r[0]| == 4
    ensures forall k :: 0 <= k < |notable_files| ==> r[k + 1] == notable_files[k]
  {
    [FilesHeader] + notable_files
  }

  // ------------------------------------------------------------ layout

  /** A section of the report: its heading and the table that follows it. */
  datatype Section = Section(heading: string, rows: seq<Row>, header: bool)

  /** The four elements before the first section. */
  const TitleBlock := [Title(ReportTitle), Spacer(12), Title(Credits), Spacer(10)]

  /** Each section's heading and table, with a 12-point spacer between consecutive sections. */
  function SectionElements(sections: seq<Section>): seq<Element>
  {
    if |sections| == 0 then []
    else
      var s := sections[0];
      if |sections| == 1 then [Heading(s.heading), Table(s.rows, s.header)]
      else [Heading(s.heading), Table(s.rows, s.header), Spacer(12)] + SectionElements(sections[1..])
  }

  /** The five sections in report order, built from the rows of each table. */
  function Sections(caseRows: seq<Row>, imageRows: seq<Row>, fsRows: seq<Row>,
                    timeline: seq<Row>, notable_files: seq<Row>): seq<Section>
  {
    [ Section(SectionTitles[0], caseRows, false),
      Section(SectionTitles[1], imageRows, false),
      Section(SectionTitles[2], fsRows, false),
      Section(SectionTitles[3], TimelineTable(timeline), true),
      Section(SectionTitles[4], FilesTable(notable_files), true) ]
  }

  /** The whole element list of a report, specified declaratively. */
  function Layout(caseRows: seq<Row>, imageRows: seq<Row>, fsRows: seq<Row>,
                  timeline: seq<Row>, notable_files: seq<Row>): seq<Element>
  {
    TitleBlock + SectionElements(Sections(caseRows, imageRows, fsRows, timeline, notable_files))
  }

  /** The texts of the headings among `elements`, in order. */
  function Headings(elements: seq<Element>): seq<string>
  {
    if |elements| == 0 then []
    else (if elements[0].Heading? then [elements[0].text] else []) + Headings(elements[1..])
  }

  lemma {:induction false} HeadingsAppend(a: seq<Element>, b: seq<Element>)
    ensures Headings(a + b) == Headings(a) + Headings(b)
  {
    if |a| == 0 {
      assert a + b == b;
    } else {
      assert (a + b)[1..] == a[1..] + b;
      HeadingsAppend(a[1..], b);
    }
  }

  /** Elements none of which is a heading contribute no heading text. */
  lemma {:induction false} HeadingsNone(elements: seq<Element>)
    requires forall k :: 0 <= k < |elements| ==> !elements[k].Heading?
    ensures Headings(elements) == []
  {
    if |elements| > 0 {
      HeadingsNone(elements[1..]);
    }
  }

  /**
   * Section j occupies positions 3j (its heading) and 3j+1 (its table), and
   * consecutive sections are parted by a spacer at 3j+2.
   */
  lemma {:induction false} SectionElementsAt(sections: seq<Section>)
    requires 1 <= |sections|
    ensures |SectionElements(sections)| == 3 * |sections| - 1
    ensures forall j :: 0 <= j < |sections| ==>
      && SectionElements(sections)[3 * j] == Heading(sections[j].heading)
      && SectionElements(sections)[3 * j + 1] == Table(sections[j].rows, sections[j].header)
    ensures forall j :: 0 <= j < |sections| - 1 ==> SectionElements(sections)[3 * j + 2] == Spacer(12)
  {
    if |sections| > 1 {
      var rest := sections[1..];
      var all := SectionElements(sections);
      var tail := SectionElements(rest);
      SectionElementsAt(rest);
      assert all[3..] == tail;
      forall j | 1 <= j < |sections|
        ensures all[3 * j] == Heading(sections[j].heading)
        ensures all[3 * j + 1] == Table(sections[j].rows, sections[j].header)
        ensures j < |sections| - 1 ==> all[3 * j + 2] == Spacer(12)
      {
        assert sections[j] == rest[j - 1];
        assert all[3 * j] == tail[3 * (j - 1)];
        assert all[3 * j + 1] == tail[3 * (j - 1) + 1];
        assert j < |sections| - 1 ==> all[3 * j + 2] == tail[3 * (j - 1) + 2];
      }
    }
  }

  /** The headings among a run of sections are the sections' own headings, in order. */
  lemma {:induction false} SectionHeadings(sections: seq<Section>)
    ensures |Headings(SectionElements(sections))| == |sections|
    ensures forall j :: 0 <= j < |sections| ==> Headings(SectionElements(sections))[j] == sections[j].heading
  {
    if |sections| > 0 {
      var s := sections[0];
      var first := [Heading(s.heading), Table(s.rows, s.header)];
      HeadingsNone(first[1..]);
      assert Headings(first) == [s.heading];
      if |sections| > 1 {
        var rest := sections[1..];
        var tail := [Spacer(12)] + SectionElements(rest);
        assert SectionElements(sections) == first + tail;
        SectionHeadings(rest);
        HeadingsAppend(first, tail);
        HeadingsAppend([Spacer(12)], SectionElements(rest));
        HeadingsNone([Spacer(12)]);
        assert Headings(SectionElements(sections)) == [s.heading] + Headings(SectionElements(rest));
      }
    }
  }

  /**
   * A report has eighteen elements: the title block, then the five section
   * headings in the fixed order, each immediately followed by its table,
   * with a spacer between sections and no other headings.
   */
  lemma ReportStructure(caseRows: seq<Row>, imageRows: seq<Row>, fsRows: seq<Row>,
                        timeline: seq<Row>, notable_files: seq<Row>)
    ensures var e := Layout(caseRows, imageRows, fsRows, timeline, notable_files);
      && |e| == 18
      && e[..4] == TitleBlock
      && Headings(e) == SectionTitles
      && (forall j :: 0 <= j < 5 ==> e[4 + 3 * j] == Heading(SectionTitles[j]))
      && (forall j :: 0 <= j < 4 ==> e[6 + 3 * j] == Spacer(12))
      && e[5] == Table(caseRows, false)
      && e[8] == Table(imageRows, false)
      && e[11] == Table(fsRows, false)
      && e[14] == Table(TimelineTable(timeline), true)
      && e[17] == Table(FilesTable(notable_files), true)
  {
    var sections := Sections(caseRows, imageRows, fsRows, timeline, notable_files);
    var e := Layout(caseRows, imageRows, fsRows, timeline, notable_files);
    SectionElementsAt(sections);
    SectionHeadings(sections);
    HeadingsAppend(TitleBlock, SectionElements(sections));
    HeadingsNone(TitleBlock);
    forall j | 0 <= j < 5 ensures e[4 + 3 * j] == Heading(SectionTitles[j]) {
      assert e[4 + 3 * j] == SectionElements(sections)[3 * j];
    }
    forall j | 0 <= j < 4 ensures e[6 + 3 * j] == Spacer(12) {
      assert e[6 + 3 * j] == SectionElements(sections)[3 * j + 2];
    }
    assert e[5] == SectionElements(sections)[3 * 0 + 1];
    assert e[8] == SectionElements(sections)[3 * 1 + 1];
    assert e[11] == SectionElements(sections)[3 * 2 + 1];
    assert e[14] == SectionElements(sections)[3 * 3 + 1];
    assert e[17] == SectionElements(sections)[3 * 4 + 1];
    assert Headings(e) == SectionTitles;
  }

  /** The layout written out element by element. */
  lemma LayoutElements(caseRows: seq<Row>, imageRows: seq<Row>, fsRows: seq<Row>,
                       timeline: seq<Row>, notable_files: seq<Row>)
    ensures Layout(caseRows, imageRows, fsRows, timeline, notable_files) ==
      TitleBlock +
      [Heading(SectionTitles[0]), Table(caseRows, false), Spacer(12)] +
      [Heading(SectionTitles[1]), Table(imageRows, false), Spacer(12)] +
      [Heading(SectionTitles[2]), Table(fsRows, false), Spacer(12)] +
      [Heading(SectionTitles[3]), Table(TimelineTable(timeline), true), Spacer(12)] +
      [Heading(SectionTitles[4]), Table(FilesTable(notable_files), true)]
  {
    var secs := Sections(caseRows, imageRows, fsRows, timeline, notable_files);
    var e4 := [Heading(SectionTitles[4]), Table(FilesTable(notable_files), true)];
    assert SectionElements(secs[4..]) == e4;
    assert secs[3..][1..] == secs[4..];
    var e3 := [Heading(SectionTitles[3]), Table(TimelineTable(timeline), true), Spacer(12)] + e4;
    assert SectionElements(secs[3..]) == e3;
    assert secs[2..][1..] == secs[3..];
    var e2 := [Heading(SectionTitles[2]), Table(fsRows, false), Spacer(12)] + e3;
    assert SectionElements(secs[2..]) == e2;
    assert secs[1..][1..] == secs[2..];
    var e1 := [Heading(SectionTitles[1]), Table(imageRows, false), Spacer(12)] + e2;
    assert SectionElements(secs[1..]) == e1;
    assert SectionElements(secs) == [Heading(SectionTitles[0]), Table(caseRows, false), Spacer(12)] + e1;
  }

  // ------------------------------------------------------------ the builder

  /**
   * generate_forensic_report: append the title block, then each section's
   * heading and table, to `elements`, and hand them to the document for
   * `output_file`. A dict lacking one of the keys read raises KeyError and
   * no document is built.
   */
  method GenerateReport(case_info: Dict, image_info: Dict, file_system_info: Dict,
                        timeline: seq<Row>, notable_files: seq<Row>, output_file: string)
    returns (r: Result<Document, Error>)
    ensures r.Success? <==>
      CaseTable(case_info).Success? && ImageTable(image_info).Success? && FsTable(file_system_info).Success?
    ensures r.Success? ==> r.value == Document(output_file, Layout(
      CaseTable(case_info).value, ImageTable(image_info).value, FsTable(file_system_info).value,
      timeline, notable_files))
    ensures r.Failure? ==>
      r.error == (if CaseTable(case_info).Failure? then CaseTable(case_info).error
                  else if ImageTable(image_info).Failure? then ImageTable(image_info).error
                  else FsTable(file_system_info).error)
  {
    var elements: seq<Element> := [];
    elements := elements + [Title(ReportTitle)];
    elements := elements + [Spacer(12)];
    elements := elements + [Title(Credits)];
    elements := elements + [Spacer(10)];
    assert elements == TitleBlock;
    elements := elements + [Heading("Case Information")];
    var case_data :- CaseTable(case_info);
    elements := elements + [Table(case_data, false)];
    elements := elements + [Spacer(12)];
    ghost var upToCase := elements;
    assert upToCase == TitleBlock + [Heading(SectionTitles[0]), Table(case_data, false), Spacer(12)];
    elements := elements + [Heading("Image Information")];
    var image_data :- ImageTable(image_info);
    elements := elements + [Table(image_data, false)];
    elements := elements + [Spacer(12)];
    ghost var upToImage := elements;
    assert upToImage == upToCase + [Heading(SectionTitles[1]), Table(image_data, false), Spacer(12)];
    elements := elements + [Heading("File System Information")];
    var fs_data :- FsTable(file_system_info);
    elements := elements + [Table(fs_data, false)];
    elements := elements + [Spacer(12)];
    ghost var upToFs := elements;
    assert upToFs == upToImage + [Heading(SectionTitles[2]), Table(fs_data, false), Spacer(12)];
    elements := elements + [Heading("Timeline of Key Events")];
    var timeline_data := TimelineTable(timeline);
    elements := elements + [Table(timeline_data, true)];
    elements := elements + [Spacer(12)];
    ghost var upToTimeline := elements;
    assert upToTimeline == upToFs + [Heading(SectionTitles[3]), Table(timeline_data, true), Spacer(12)];
    elements := elements + [Heading("Notable Files")];
    var files_data := FilesTable(notable_files);
    elements := elements + [Table(files_data, true)];
    assert elements == upToTimeline + [Heading(SectionTitles[4]), Table(files_data, true)];
    LayoutElements(case_data, image_data, fs_data, timeline, notable_files);
    r := Success(Document(output_file, elements));
  }
}
