# Forensic report generator: a Dafny model of its data reshaping

The forensic report generator is a command-line tool. It takes case details,
disk-image metadata, file-system metadata, a timeline of events and a list of
notable files as flags, and lays them out as a PDF document. This project
models the part of `for.py` that is not rendering or argument parsing:

- **Token splitting** (`main`, lines 103-104). Each `--timeline` token is cut
  at its first comma (`event.split(',', 1)`). Each `--notable-files` token is
  cut at every comma (`file.split(',')`). Module `PyStr` models Python's
  `str.split(sep, maxsplit)` for a one-character separator as the function
  `PyStr.Split`. The source calls none of `Find`, `Count` or `Join`. They are
  helper definitions (Python's `str.find`, `str.count` and `sep.join`) used to
  state and prove what `Split` returns. `Split` has no contract of its own:
  the `PyStr` lemma rows in the table below are its contract. Module `Cli`
  holds the two list comprehensions.
- **Record assembly** (`main`, lines 84-102). The three info dicts are
  `map<string, string>` values. `--capacity` is stored under `total_capacity`
  and `--fs-created` under `created_date`.
- **Table data and element order** (`generate_forensic_report`, lines
  15-62). Module `Report` builds the three label/value tables. A lookup of a
  key the dict lacks is Python's `KeyError`, returned as a `Result` failure
  for the first missing key. The Timeline and Notable Files tables are a
  header row followed by the given rows. The method `GenerateReport` appends
  elements one by one to a `seq`, as the source does with `elements.append`.
  It is proved equal to the function `Report.Layout`, which states the element
  list declaratively. `Layout` has no contract of its own: the rows for
  `SectionElementsAt`, `SectionHeadings` and `ReportStructure` are its
  contract, and `ReportStructure` proves the order of the sections.
- **The pipeline** (`main`, lines 84-105). `Cli.BuildReport` builds the
  dicts, splits the tokens and generates the report. It proves that no
  `KeyError` can occur, that the document is the report layout with every
  heading in place, and that every flag value appears under its label.

An element records only what the report puts in it: `Title`, `Heading`,
`Spacer(height)` and `Table(rows, header)`. Here `header` marks the two
tables whose first row gets the grey header style.

The `--timeline` and `--notable-files` help strings (for.py:80-81) show two
and four comma-separated fields. The code enforces neither. A timeline token
without a comma gives a one-part row. A file token gives as many parts as it
has commas plus one. The model follows the code (`Cli.TimelineEntry`,
`Cli.NotableFileThreeFields`).

## Model

| member | source | states |
|---|---|---|
| `PyStr.FindIsFirst` | for.py:103-104 | the index `str.find` returns is the first occurrence of the separator, and -1 means there is none |
| `PyStr.JoinSplit` | for.py:103-104 | for every maxsplit, joining the parts of `s.split(sep, maxsplit)` with `sep` gives `s` back |
| `PyStr.SplitLength` | for.py:103-104 | a split yields one part more than it makes cuts; it cuts at every separator unless maxsplit stops it first |
| `PyStr.SplitPartsSepFree` | for.py:103-104 | every part of a split except the last is free of the separator |
| `PyStr.SplitLastPart` | for.py:103-104 | the last part holds a separator exactly when 0 <= maxsplit < the number of separators |
| `PyStr.SplitOnce` | for.py:103 | `split(sep, 1)` on a string with a separator gives two parts, the first separator-free, rejoining to the string; without one it gives `[s]` |
| `PyStr.SplitUnlimited` | for.py:104 | `split(sep)` gives separator-free parts, one more than the separators, rejoining to the string |
| `PyStr.SplitJoin` | for.py:104 | splitting inverts joining: separator-free parts joined and split again (maxsplit large enough or unlimited) come back unchanged |
| `Cli.TimelineEntry` | for.py:103 | a timeline token with a comma splits into a comma-free date/time and the rest, commas included, which rejoin to the token; without a comma the row is `[token]` |
| `Cli.TimelineEntryInverse` | for.py:103 | a comma-free date/time and any event text, joined by a comma, split back into exactly those two fields |
| `Cli.TimelineEntryUnique` | for.py:103 | any one- or two-part row with a comma-free first part that rejoins to the token is that token's split |
| `Cli.NotableFileEntry` | for.py:104 | a notable-file token splits into comma-free parts, one more than its commas, that rejoin to the token; no field count is enforced |
| `Cli.NotableFileEntryInverse` | for.py:104 | comma-free fields joined by commas split back into the same fields |
| `Cli.NotableFileThreeFields` | for.py:104 | a token with only three comma-separated fields is accepted and gives a three-part row |
| `Cli.ParseTimeline` | for.py:103 | one row per token, in token order; row i has one or two parts, a comma-free first part, and rejoins to token i |
| `Cli.ParseNotableFiles` | for.py:104 | one row per token, in token order; row i is comma-free, has one part more than token i has commas, and rejoins to token i |
| `Cli.CaseInfo` | for.py:84-89 | case_info has exactly the four keys the Case table reads |
| `Cli.ImageInfo` | for.py:90-96 | image_info has exactly the five keys the Image table reads; `--capacity` is stored under `total_capacity`, not `capacity` |
| `Cli.FileSystemInfo` | for.py:97-102 | file_system_info has exactly the four keys the File System table reads; `--fs-created` is stored under `created_date` |
| `Report.LabelledRows` | for.py:21-26 | a label/value table succeeds iff every key is in the dict; it then has one `[label, value]` row per label in order; otherwise the error is KeyError for the first missing key |
| `Report.CaseTable` | for.py:21-26 | the Case table has 4 rows, `[Case Number:, Investigator:, Date:, Description:]` paired with their values, iff all four keys are present |
| `Report.ImageTable` | for.py:30-36 | the Image table has 5 rows, from Image Type: to Total Capacity: in order, iff all five keys are present |
| `Report.FsTable` | for.py:40-45 | the File System table has 4 rows, from File System Type: to Last Mounted: in order, iff all four keys are present |
| `Report.TimelineTable` | for.py:49 | the timeline data is the header `[Date/Time, Event]` followed by the timeline rows unchanged: length 1 + n and row k+1 is timeline row k |
| `Report.FilesTable` | for.py:57 | the files data is the 4-column header `[Filename, Path, Size, Last Modified]` followed by the file rows unchanged |
| `Report.SectionElementsAt` | for.py:20-57 | section j's heading sits at 3j and its table right after it at 3j+1, with a 12-point spacer between consecutive sections |
| `Report.SectionHeadings` | for.py:20-56 | the headings among the section elements are exactly the sections' headings, in order |
| `Report.ReportStructure` | for.py:15-62 | the report has 18 elements: the title block, then the headings Case Information, Image Information, File System Information, Timeline of Key Events and Notable Files in that order, and no other headings, each heading directly followed by its table |
| `Report.GenerateReport` | for.py:9-63 | appending element by element gives a document for the output path whose elements are the declarative layout; a missing key fails with KeyError for the first missing key, Case before Image before File System |
| `Cli.CaseRowsFromArgs` | for.py:84-89 | the Case table built from main's dict shows each case flag under its label |
| `Cli.ImageRowsFromArgs` | for.py:90-96 | the Image table built from main's dict shows each image flag under its label, `--capacity` as Total Capacity |
| `Cli.FsRowsFromArgs` | for.py:97-102 | the File System table built from main's dict shows each file-system flag under its label, `--fs-created` as Created Date |
| `Cli.BuildReport` | for.py:84-105 | main never raises KeyError; the document goes to `--output` and is exactly the report layout of main's dicts and split tokens: the title block first, then the headings Case Information, Image Information, File System Information, Timeline of Key Events and Notable Files at fixed positions in that order, each directly followed by its table; every flag appears under its label, and the timeline and file rows keep the order their tokens were given |

## Left out

- Rendering with reportlab (lines 10-14, 50-54, 58-63): the page template, paragraph styles, the `Heading2` style fallback, grid, background and text colours, pagination and `doc.build` itself. This is a foreign library. An element records only its text, rows, spacer height and whether its first row is a header.
- Column widths in inches (lines 27, 37, 46, 50, 58). These are floating-point layout values.
- How the layout library treats ragged rows, such as one-part timeline rows or file rows without four fields. The model hands the rows over unchanged, as the source does.
- Argument parsing (lines 66-83): required flags, `nargs='+'`, help text and the defaults. The date default comes from the clock, and `E01` and `forensic_report.pdf` are argparse defaults. `Cli.Args` is the namespace with defaults already filled in.
- File-system effects and console output (lines 64, 106-109): the success message, `os.path.exists`, `os.startfile` and the failure message.
