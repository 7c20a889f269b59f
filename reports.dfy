/** The report download service (features/reports/reports.service.ts): the
    list of formats the server offers, the `Accept` header each format is
    requested with, the name a downloaded report is saved under, and the
    loading flag around a generation request. */
module Reports {
  import opened Wrappers

  /** `type ReportFormat = 'PDF' | 'CSV' | 'XML' | 'JSON'`. */
  datatype ReportFormat = PDF | CSV | XML | JSON

  /** The string a format is at run time. */
  function FormatName(f: ReportFormat): string {
    match f
    case PDF => "PDF"
    case CSV => "CSV"
    case XML => "XML"
    case JSON => "JSON"
  }

  const OctetStream: string := "application/octet-stream"
  const FilePrefix: string := "books-report-"

  /** The `switch` of `generateBooksReport`, on the format string it sees at
      run time: the four format names have their media types, and anything
      else falls to the default. */
  function ContentTypeFor(format: string): (r: string)
    ensures r == OctetStream <==> format !in {"PDF", "CSV", "XML", "JSON"}
  {
    if format == "PDF" then "application/pdf"
    else if format == "CSV" then "text/csv"
    else if format == "XML" then "application/xml"
    else if format == "JSON" then "application/json"
    else OctetStream
  }

  /** Every `ReportFormat` has its own media type, so the default branch is
      never taken for a well-typed format, and no two formats share a type. */
  lemma ContentTypes(f: ReportFormat, g: ReportFormat)
    ensures ContentTypeFor(FormatName(f)) != OctetStream
    ensures f == PDF ==> ContentTypeFor(FormatName(f)) == "application/pdf"
    ensures f == CSV ==> ContentTypeFor(FormatName(f)) == "text/csv"
    ensures f == XML ==> ContentTypeFor(FormatName(f)) == "application/xml"
    ensures f == JSON ==> ContentTypeFor(FormatName(f)) == "application/json"
    ensures f != g ==> ContentTypeFor(FormatName(f)) != ContentTypeFor(FormatName(g))
  {
  }

  /** `toLowerCase` on ASCII text: capitals become small letters, all else
      is kept. */
  function LowerAscii(s: string): (r: string)
    ensures |r| == |s|
    ensures forall i :: 0 <= i < |s| ==>
      r[i] == if 'A' <= s[i] <= 'Z' then (s[i] as int + 32) as char else s[i]
  {
    if s == [] then []
    else [if 'A' <= s[0] <= 'Z' then (s[0] as int + 32) as char else s[0]] + LowerAscii(s[1..])
  }

  /** The file extension of a format: its name in lower case. */
  function Extension(f: ReportFormat): (e: string)
    ensures |e| == |FormatName(f)|
    ensures forall i :: 0 <= i < |e| ==>
      'a' <= e[i] <= 'z' && e[i] as int == FormatName(f)[i] as int + 32
  {
    assert forall i :: 0 <= i < |FormatName(f)| ==> 'A' <= FormatName(f)[i] <= 'Z';
    LowerAscii(FormatName(f))
  }

  /** The extensions are `pdf`, `csv`, `xml` and `json`, and each media type
      ends in `/` and the extension. */
  lemma {:induction false} ExtensionMatchesContentType(f: ReportFormat)
    ensures Extension(f) == match f
      case PDF => "pdf"
      case CSV => "csv"
      case XML => "xml"
      case JSON => "json"
    ensures var ct := ContentTypeFor(FormatName(f)); var ext := Extension(f);
      |ct| > |ext| && ct[|ct| - |ext| - 1..] == "/" + ext
  {
    var name := FormatName(f);
    var ext := Extension(f);
    assert |ext| == |name|;
    forall i | 0 <= i < |name|
      ensures 'A' <= name[i] <= 'Z'
    {
    }
    match f {
      case PDF => assert ext == "pdf";
      case CSV => assert ext == "csv";
      case XML => assert ext == "xml";
      case JSON => assert ext == "json";
    }
  }

  /** The download name `books-report-<date>.<extension>`, where `date` is
      the ISO date part of the current time. */
  function DownloadFileName(f: ReportFormat, date: string): (name: string)
    ensures |name| == |FilePrefix| + |date| + 1 + |Extension(f)|
    ensures name[..|FilePrefix|] == FilePrefix
    ensures name[|FilePrefix|..|FilePrefix| + |date|] == date
    ensures name[|name| - |Extension(f)| - 1..] == "." + Extension(f)
  {
    var ext := Extension(f);
    var name := FilePrefix + date + "." + ext;
    assert name == (FilePrefix + date) + ("." + ext);
    name
  }

  class ReportsService {
    var formats: seq<string>
    var loading: bool

    constructor ()
      ensures formats == [] && !loading
    {
      formats := [];
      loading := false;
    }

    /** `loadFormats`: the server's list replaces the formats; an error has
        no handler and changes nothing. */
    method LoadFormats(outcome: Outcome<seq<string>>)
      modifies this
      ensures outcome.Success? ==> formats == outcome.value
      ensures outcome.Failure? ==> formats == old(formats)
      ensures loading == old(loading)
    {
      if outcome.Success? {
        formats := outcome.value;
      }
    }

    /** `generateBooksReport(format)`, up to sending the request: loading is
        on and the request asks for the format's media type (`accept`). */
    method GenerateBooksReport(format: ReportFormat) returns (accept: string)
      modifies this
      ensures loading && formats == old(formats)
      ensures accept == ContentTypeFor(FormatName(format)) && accept != OctetStream
    {
      loading := true;
      accept := ContentTypeFor(FormatName(format));
      ContentTypes(format, format);
    }

    /** The request's `finalize`: whether the report arrived, failed or was
        abandoned, loading is off. */
    method OnReportFinalized()
      modifies this
      ensures !loading && formats == old(formats)
    {
      loading := false;
    }
  }
}
