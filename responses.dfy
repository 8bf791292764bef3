/** The handle on a successful conversion (lib/pdf_response.js): the fields set
    once by its constructor and the getters computed from them. `refresh`, which
    calls back into the wrapper, is `Requests.Refresh`. */
module Responses {

  import opened JsValues
  import opened Strings

  /** The body stream of the HTTP exchange that produced the handle. The bytes
      are read by the caller and are not modelled: a stream is an opaque handle. */
  datatype Stream = Stream(handle: nat)

  /** Response headers, by lower-case name. */
  type Headers = map<string, string>

  /** A `PdfResponse`. The constructor stores the request's options object, the
      response headers, the body stream and the wrapper that issued the request,
      and draws `uuid` once (with `uuidv1()`, which the caller supplies here).
      Nothing changes these fields afterwards, so the `stream` and `headers`
      getters are the fields `content` and `headers`. `W` is the type of the
      wrapper, `Requests.RequestWrapper`. */
  datatype PdfResponse<W> = PdfResponse(
    options: JsObject,
    headers: Headers,
    content: Stream,
    wrapper: W,
    uuid: string)

  const FilenameMarker: string := "filename="

  /** The file name used when the headers give none: the uuid with `.pdf`. */
  function DefaultFilename<W>(r: PdfResponse<W>): (name: string)
    ensures |name| == |r.uuid| + 4 && name[..|r.uuid|] == r.uuid && name[|r.uuid|..] == ".pdf"
  {
    r.uuid + ".pdf"
  }

  /** The `content-disposition` header when it is present and not empty (an empty
      string is falsy), else the default file name. */
  function Disposition<W>(r: PdfResponse<W>): (d: string)
    ensures d != ""
    ensures "content-disposition" in r.headers && r.headers["content-disposition"] != "" ==>
      d == r.headers["content-disposition"]
    ensures "content-disposition" !in r.headers || r.headers["content-disposition"] == "" ==>
      d == DefaultFilename(r)
  {
    if "content-disposition" in r.headers && r.headers["content-disposition"] != ""
    then r.headers["content-disposition"]
    else DefaultFilename(r)
  }

  /** The `fileName` getter: the last piece of the disposition split at
      `filename=`, or the default file name when that piece is empty. It is
      never empty, and unless it is the default it holds no `filename=`; the
      lemmas below pin it down case by case. */
  function FileName<W>(r: PdfResponse<W>): (name: string)
    ensures name != ""
    ensures name == DefaultFilename(r) || !Contains(name, FilenameMarker)
  {
    var last := LastPiece(Disposition(r), FilenameMarker);
    if last != "" then last else DefaultFilename(r)
  }

  /** The text form of a version-1 uuid: hexadecimal digits and dashes. */
  predicate IsUuidText(u: string)
  {
    forall i :: 0 <= i < |u| ==> u[i] in "0123456789abcdef-"
  }

  /** Occurrences of `filename=` never overlap. */
  lemma MarkerUnbordered()
    ensures Unbordered(FilenameMarker)
  {
    var m := FilenameMarker;
    forall d | 0 < d < |m|
      ensures m[d..] != m[..|m| - d]
    {
      assert m[d..][|m| - d - 1] == '=';
      assert m[..|m| - d][|m| - d - 1] == m[|m| - d - 1] != '=';
    }
  }

  /** A string without `=` has no `filename=` in it. */
  lemma NoMarkerWithoutEquals(s: string)
    requires '=' !in s
    ensures !Contains(s, FilenameMarker)
  {
    forall i: nat | i + 9 <= |s|
      ensures !OccursAt(s, FilenameMarker, i)
    {
      assert s[i..i + 9][8] == s[i + 8];
    }
  }

  /** Without a usable `content-disposition` header the file name is the uuid
      with `.pdf`. */
  lemma FileNameWithoutHeader<W>(r: PdfResponse<W>)
    requires IsUuidText(r.uuid)
    requires "content-disposition" !in r.headers || r.headers["content-disposition"] == ""
    ensures FileName(r) == r.uuid + ".pdf"
  {
    var d := DefaultFilename(r);
    assert '=' !in d by {
      forall i | 0 <= i < |d| ensures d[i] != '=' {
        if i < |r.uuid| { assert d[i] == r.uuid[i]; }
      }
    }
    NoMarkerWithoutEquals(d);
    MarkerUnbordered();
    LastPieceIsAfterLast(d, FilenameMarker);
  }

  /** When the header contains `filename=` with text after its last occurrence,
      the file name is that text, quotes and all. */
  lemma FileNameAfterLastMarker<W>(r: PdfResponse<W>, p: nat)
    requires "content-disposition" in r.headers
    requires var v := r.headers["content-disposition"];
      && OccursAt(v, FilenameMarker, p)
      && (forall j: nat :: p < j ==> !OccursAt(v, FilenameMarker, j))
      && p + |FilenameMarker| < |v|
    ensures FileName(r) == r.headers["content-disposition"][p + |FilenameMarker|..]
  {
    var v := r.headers["content-disposition"];
    MarkerUnbordered();
    LastPieceIsAfterLast(v, FilenameMarker);
    LastIndexOfIs(v, FilenameMarker, p);
  }

  /** When `filename=` ends the header, nothing follows it and the file name
      falls back to the default. */
  lemma FileNameEmptyAfterMarker<W>(r: PdfResponse<W>)
    requires "content-disposition" in r.headers
    requires var v := r.headers["content-disposition"];
      |v| >= |FilenameMarker| && OccursAt(v, FilenameMarker, |v| - |FilenameMarker|)
    ensures FileName(r) == r.uuid + ".pdf"
  {
    var v := r.headers["content-disposition"];
    MarkerUnbordered();
    LastPieceIsAfterLast(v, FilenameMarker);
    LastIndexOfIs(v, FilenameMarker, |v| - |FilenameMarker|);
  }

  /** A non-empty header without `filename=` is the file name as a whole. */
  lemma FileNameWholeHeader<W>(r: PdfResponse<W>)
    requires "content-disposition" in r.headers
    requires var v := r.headers["content-disposition"];
      v != "" && !Contains(v, FilenameMarker)
    ensures FileName(r) == r.headers["content-disposition"]
  {
  }

  /** The `size` getter, `(headers['content-length'] || 0) * 1`: 0 without the
      header (or with an empty one), the number a decimal digit string denotes
      otherwise. `None` stands for any other header text, whose numeric coercion
      is not modelled. */
  function Size<W>(r: PdfResponse<W>): (n: Option<nat>)
    ensures "content-length" !in r.headers ==> n == Some(0)
    ensures "content-length" in r.headers && AllDigits(r.headers["content-length"]) ==>
      n == Some(ParseDecimal(r.headers["content-length"]))
    ensures n.None? <==> "content-length" in r.headers && !AllDigits(r.headers["content-length"])
  {
    if "content-length" !in r.headers || r.headers["content-length"] == "" then Some(0)
    else if AllDigits(r.headers["content-length"]) then Some(ParseDecimal(r.headers["content-length"]))
    else None
  }

  /** A `content-length` written as the decimal notation of `n` gives size `n`. */
  lemma SizeOfLength<W>(r: PdfResponse<W>, n: nat)
    requires "content-length" in r.headers && r.headers["content-length"] == FormatDecimal(n)
    ensures Size(r) == Some(n)
  {
    ParseFormat(n);
  }
}
