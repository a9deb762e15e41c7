/**
 * The North Carolina Licensing Board for General Contractors adapter.
 *
 * A lookup takes three requests: a search by account number, whose answer
 * embeds an opaque key in a `ShowAccountDetails('<key>')` call; the account
 * detail page for that key; and, on a best-effort basis, the public matters
 * (violations) page for the same key. HTTP is abstracted into the fetch
 * functions of a `Registry`, and HTML into the parsed shapes below.
 */
module NorthCarolina {
  import opened Common
  import opened Text
  import opened Fields
  import opened Canonical

  const Board := "NCLBGC"
  /** The literal part of the pattern `ShowAccountDetails\(\s*'([^']+)'`. */
  const Marker := "ShowAccountDetails("
  /** The dictionary key under which the detail parse stores the classifications. */
  const ClassificationsKey := "_classifications"
  const NotFoundMessage := "License not found"
  const Separator := ", "

  /** The two ways the search form is filled in: by account number, or by company name. */
  datatype SearchForm = ByAccountNumber(accountNumber: string) | ByCompanyName(companyName: string)

  /** An outbound request, as recorded in a lookup's trace. */
  datatype Request = SearchPost(form: SearchForm) | DetailGet(key: string) | MattersGet(key: string)

  /**
   * A `<fieldset>` of the detail page: the text of its first `<legend>`, and
   * the text nodes of its first `display-field` div.
   */
  datatype Fieldset = Fieldset(legend: Option<string>, field: Option<seq<string>>)

  /**
   * A parsed detail page: every `display-label` div in document order with the
   * text of its next `display-field` sibling (if any), and every fieldset.
   */
  datatype DetailPage = DetailPage(labels: seq<Entry>, fieldsets: seq<Fieldset>)

  /** A `<td>` of a search answer: its stripped text, and the text of its first link. */
  datatype Cell = Cell(text: string, link: Option<string>)

  /** The registry as the adapter sees it: one function per endpoint, and the HTML parser. */
  datatype Registry = Registry(
    search: SearchForm -> Fetch,
    detail: string -> Fetch,
    matters: string -> Fetch,
    detailPage: string -> DetailPage,
    searchRows: string -> seq<seq<Cell>>)

  /** The result of `_parse_detail_html` with the classifications kept apart from the text fields. */
  datatype ParsedDetail = ParsedDetail(fields: map<string, string>, classifications: seq<string>)

  /** A lookup result together with the requests the lookup made, in order. */
  datatype Outcome = Outcome(result: LookupResult, requests: seq<Request>)

  // ---------------------------------------------------------------- the opaque key

  /** The end of the run of whitespace that starts at `i` (the `\s*` of the pattern). */
  function SkipSpaces(s: string, i: nat): (j: nat)
    requires i <= |s|
    ensures i <= j <= |s|
    ensures forall k :: i <= k < j ==> IsSpace(s[k])
    ensures j < |s| ==> !IsSpace(s[j])
    decreases |s| - i
  {
    if i < |s| && IsSpace(s[i]) then SkipSpaces(s, i + 1) else i
  }

  /** The first quote at or after `i`, or `|s|` (the end of `[^']+`). */
  function QuoteFrom(s: string, i: nat): (j: nat)
    requires i <= |s|
    ensures i <= j <= |s|
    ensures forall k :: i <= k < j ==> s[k] != '\''
    ensures j < |s| ==> s[j] == '\''
    decreases |s| - i
  {
    if i < |s| && s[i] != '\'' then QuoteFrom(s, i + 1) else i
  }

  /**
   * Does `ShowAccountDetails\(\s*'([^']+)'` match at offset `i`, and with
   * which group? Neither `\s*` nor `[^']+` can give back characters to let a
   * quote match, so the match at a given offset is unique.
   */
  function MatchAt(s: string, i: nat): (r: Option<string>)
    requires i <= |s|
    ensures r.Some? ==> StartsWith(s[i..], Marker) && r.value != [] && '\'' !in r.value
  {
    if !StartsWith(s[i..], Marker) then None
    else
      var openQuote := SkipSpaces(s, i + |Marker|);
      if openQuote < |s| && s[openQuote] == '\'' then
        var closeQuote := QuoteFrom(s, openQuote + 1);
        if openQuote + 1 < closeQuote < |s| then Some(s[openQuote + 1..closeQuote]) else None
      else None
  }

  /**
   * Where the group of a match lies: between the quote that follows the
   * marker's whitespace and the next quote. Without a match, the marker is
   * not followed by a quote, or its argument is empty, or it is never closed.
   */
  lemma MatchAtArgument(s: string, i: nat)
    requires i <= |s| && StartsWith(s[i..], Marker)
    ensures var r, openQuote := MatchAt(s, i), SkipSpaces(s, i + |Marker|);
      r.Some? ==>
        var closeQuote := openQuote + 1 + |r.value|;
        closeQuote < |s| && s[openQuote] == '\'' && s[closeQuote] == '\'' && s[openQuote + 1..closeQuote] == r.value
    ensures var r, openQuote := MatchAt(s, i), SkipSpaces(s, i + |Marker|);
      r.None? ==>
        || openQuote == |s| || s[openQuote] != '\''
        || QuoteFrom(s, openQuote + 1) == openQuote + 1 || QuoteFrom(s, openQuote + 1) == |s|
  {
  }

  /** A call whose argument is not quoted, as in `ShowAccountDetails(x)`, does not match. */
  lemma UnquotedCallDoesNotMatch(s: string, i: nat)
    requires i <= |s| && StartsWith(s[i..], Marker)
    requires i + |Marker| < |s| && !IsSpace(s[i + |Marker|]) && s[i + |Marker|] != '\''
    ensures MatchAt(s, i) == None
  {
    assert SkipSpaces(s, i + |Marker|) == i + |Marker|;
  }

  /** No match starts in `[i, p)`. */
  predicate NoMatchBetween(s: string, i: nat, p: nat)
    requires i <= p <= |s| + 1
  {
    forall q :: i <= q < p ==> MatchAt(s, q).None?
  }

  /** `re.search` from offset `i`: the group of the leftmost match at or after `i`. */
  function KeyFrom(s: string, i: nat): (r: Option<string>)
    requires i <= |s|
    ensures r.Some? ==> exists p :: i <= p <= |s| && MatchAt(s, p) == r && NoMatchBetween(s, i, p)
    ensures r.None? ==> NoMatchBetween(s, i, |s| + 1)
    decreases |s| - i
  {
    if i == |s| then MatchAt(s, i)
    else
      match MatchAt(s, i)
      case Some(k) => assert NoMatchBetween(s, i, i); Some(k)
      case None =>
        var r := KeyFrom(s, i + 1);
        assert r.Some? ==> exists p :: i <= p <= |s| && MatchAt(s, p) == r && NoMatchBetween(s, i, p) by {
          if r.Some? {
            var p :| i + 1 <= p <= |s| && MatchAt(s, p) == r && NoMatchBetween(s, i + 1, p);
            assert NoMatchBetween(s, i, p);
          }
        }
        r
  }

  /** The key in the search answer, if the answer holds a `ShowAccountDetails('...')` call. */
  function ExtractKey(body: string): (r: Option<string>)
    ensures r.Some? ==> r.value != [] && '\'' !in r.value
  {
    KeyFrom(body, 0)
  }

  /** An answer without the text `ShowAccountDetails(` yields no key. */
  lemma NoMarkerNoKey(body: string)
    requires !Contains(body, Marker)
    ensures ExtractKey(body) == None
  {
    if ExtractKey(body).Some? {
      var p :| 0 <= p <= |body| && MatchAt(body, p) == ExtractKey(body);
      ContainsAt(body, Marker, p);
    }
  }

  /** A run of whitespace from `i` that ends before a non-space at `j` is what `\s*` consumes. */
  lemma {:induction false} SkipSpacesTo(s: string, i: nat, j: nat)
    requires i <= j < |s| && !IsSpace(s[j])
    requires forall k :: i <= k < j ==> IsSpace(s[k])
    ensures SkipSpaces(s, i) == j
    decreases j - i
  {
    if i < j {
      SkipSpacesTo(s, i + 1, j);
    }
  }

  /** The first quote from `i` is at `j` when none lies in `[i, j)`. */
  lemma {:induction false} QuoteFromTo(s: string, i: nat, j: nat)
    requires i <= j < |s| && s[j] == '\''
    requires forall k :: i <= k < j ==> s[k] != '\''
    ensures QuoteFrom(s, i) == j
    decreases j - i
  {
    if i < j {
      QuoteFromTo(s, i + 1, j);
    }
  }

  /** The match at `i` when the marker, the opening quote and the closing quote are where given. */
  lemma MatchAtQuotes(s: string, i: nat, openQuote: nat, closeQuote: nat)
    requires i <= |s| && StartsWith(s[i..], Marker)
    requires i + |Marker| <= |s| && SkipSpaces(s, i + |Marker|) == openQuote
    requires openQuote < |s| && s[openQuote] == '\''
    requires openQuote + 1 <= |s| && QuoteFrom(s, openQuote + 1) == closeQuote
    requires openQuote + 1 < closeQuote < |s|
    ensures MatchAt(s, i) == Some(s[openQuote + 1..closeQuote])
  {
  }

  /** `spaces` written at `from` and followed by a quote is exactly what `\s*` consumes. */
  lemma SkipWrittenSpaces(s: string, from: nat, spaces: string)
    requires forall k :: 0 <= k < |spaces| ==> IsSpace(spaces[k])
    requires from + |spaces| < |s| && s[from + |spaces|] == '\''
    requires s[from..from + |spaces|] == spaces
    ensures SkipSpaces(s, from) == from + |spaces|
  {
    forall k | from <= k < from + |spaces| ensures IsSpace(s[k]) {
      assert s[k] == s[from..from + |spaces|][k - from];
    }
    SkipSpacesTo(s, from, from + |spaces|);
  }

  /** A quote-free `key` written at `from` and followed by a quote is exactly what `[^']+` consumes. */
  lemma QuoteAfterWrittenKey(s: string, from: nat, key: string)
    requires '\'' !in key
    requires from + |key| < |s| && s[from + |key|] == '\''
    requires s[from..from + |key|] == key
    ensures QuoteFrom(s, from) == from + |key|
  {
    forall k | from <= k < from + |key| ensures s[k] != '\'' {
      assert s[k] == s[from..from + |key|][k - from];
    }
    QuoteFromTo(s, from, from + |key|);
  }

  /** A call `ShowAccountDetails(<spaces>'<key>'` written at offset `i` matches there, with group `key`. */
  lemma MatchAtCall(s: string, i: nat, spaces: string, key: string)
    requires forall k :: 0 <= k < |spaces| ==> IsSpace(spaces[k])
    requires key != [] && '\'' !in key
    requires i + |Marker| + |spaces| + |key| + 2 <= |s|
    requires StartsWith(s[i..], Marker)
    requires s[i + |Marker|..i + |Marker| + |spaces|] == spaces
    requires s[i + |Marker| + |spaces|] == '\''
    requires s[i + |Marker| + |spaces| + 1..i + |Marker| + |spaces| + 1 + |key|] == key
    requires s[i + |Marker| + |spaces| + 1 + |key|] == '\''
    ensures MatchAt(s, i) == Some(key)
  {
    var from := i + |Marker|;
    var openQuote := from + |spaces|;
    SkipWrittenSpaces(s, from, spaces);
    QuoteAfterWrittenKey(s, openQuote + 1, key);
    MatchAtQuotes(s, i, openQuote, openQuote + 1 + |key|);
  }

  /** A match at `q` lies at or after any `p` that no match precedes. */
  lemma MatchNotBefore(s: string, p: nat, q: nat)
    requires p <= |s| + 1 && q <= |s|
    requires NoMatchBetween(s, 0, p) && MatchAt(s, q).Some?
    ensures p <= q
  {
  }

  /** A match at `p` with none before it is the match `re.search` finds. */
  lemma LeftmostMatch(s: string, p: nat, key: string)
    requires p <= |s| && MatchAt(s, p) == Some(key) && NoMatchBetween(s, 0, p)
    ensures ExtractKey(s) == Some(key)
  {
    if ExtractKey(s).None? {
      assert false;
    }
    var q: nat :| q <= |s| && MatchAt(s, q) == ExtractKey(s) && NoMatchBetween(s, 0, q);
    MatchNotBefore(s, p, q);
    MatchNotBefore(s, q, p);
  }

  /** No match can start inside a prefix that has no `S`, the first letter of the marker. */
  lemma NoMatchInPrefix(s: string, n: nat)
    requires n <= |s|
    requires 'S' !in s[..n]
    ensures NoMatchBetween(s, 0, n)
  {
    forall q | 0 <= q < n ensures MatchAt(s, q).None? {
      assert s[q..][0] == s[..n][q];
    }
  }

  /** Where the parts of a written call land in the answer text. */
  lemma CallLayout(before: string, spaces: string, key: string, after: string)
    ensures var s := before + Marker + spaces + "'" + key + "'" + after;
      var i := |before|;
      && i + |Marker| + |spaces| + |key| + 2 <= |s|
      && s[..i] == before
      && StartsWith(s[i..], Marker)
      && s[i + |Marker|..i + |Marker| + |spaces|] == spaces
      && s[i + |Marker| + |spaces|] == '\''
      && s[i + |Marker| + |spaces| + 1..i + |Marker| + |spaces| + 1 + |key|] == key
      && s[i + |Marker| + |spaces| + 1 + |key|] == '\''
  {
    var m := before + Marker;
    var b := m + spaces;
    var o := b + "'";
    var d := o + key;
    var e := d + "'";
    var s := e + after;
    assert s == before + Marker + spaces + "'" + key + "'" + after;
    assert s[..|e|] == e && e[..|d|] == d && d[..|o|] == o && o[..|b|] == b && b[..|m|] == m;
    assert s[|before|..][..|Marker|] == m[|before|..] == Marker;
    assert s[|m|..|b|] == b[|m|..] == spaces;
    assert s[|o|..|d|] == d[|o|..] == key;
  }

  /**
   * The key written into a `ShowAccountDetails('<key>')` call is the key
   * extracted back, whatever follows and whatever whitespace precedes the
   * quote, provided nothing before the call could start another match.
   */
  lemma KeyRoundTrip(before: string, spaces: string, key: string, after: string)
    requires 'S' !in before
    requires forall k :: 0 <= k < |spaces| ==> IsSpace(spaces[k])
    requires key != [] && '\'' !in key
    ensures ExtractKey(before + Marker + spaces + "'" + key + "'" + after) == Some(key)
  {
    var s := before + Marker + spaces + "'" + key + "'" + after;
    CallLayout(before, spaces, key, after);
    MatchAtCall(s, |before|, spaces, key);
    NoMatchInPrefix(s, |before|);
    LeftmostMatch(s, |before|, key);
  }

  /** One of the characters of `lstrip("Ll.")`. */
  predicate IsPrefixChar(c: char) {
    c == 'L' || c == 'l' || c == '.'
  }

  /**
   * `license_number.lstrip("Ll.")`: removes every leading `L`, `l` and `.`,
   * so that "L.12345" is searched as "12345".
   */
  function StripPrefix(s: string): (r: string)
    ensures |r| <= |s| && r == s[|s| - |r|..]
    ensures r == [] || !IsPrefixChar(r[0])
    ensures forall k :: 0 <= k < |s| - |r| ==> IsPrefixChar(s[k])
  {
    if |s| > 0 && IsPrefixChar(s[0]) then
      var r := StripPrefix(s[1..]);
      assert s[1..][|s| - 1 - |r|..] == s[|s| - |r|..];
      assert forall k :: 1 <= k < |s| - |r| ==> s[k] == s[1..][k - 1];
      r
    else s
  }

  /** Stripping a second time removes nothing more. */
  lemma StripPrefixIdempotent(s: string)
    ensures StripPrefix(StripPrefix(s)) == StripPrefix(s)
  {
  }

  /**
   * `_get_encrypted_key`: strip the jurisdiction prefix, search by account
   * number, and extract the key; a failed search is no key.
   */
  function EncryptedKey(reg: Registry, licenseNumber: string): (key: Option<string>)
    ensures key.Some? ==> key.value != [] && '\'' !in key.value
    ensures reg.search(ByAccountNumber(StripPrefix(licenseNumber))).Err? ==> key.None?
    ensures reg.search(ByAccountNumber(StripPrefix(licenseNumber))).Ok? ==>
      key == ExtractKey(reg.search(ByAccountNumber(StripPrefix(licenseNumber))).body)
  {
    match reg.search(ByAccountNumber(StripPrefix(licenseNumber)))
    case Err(_) => None
    case Ok(body) => ExtractKey(body)
  }

  // ---------------------------------------------------------------- the detail page

  /** BeautifulSoup's `stripped_strings`: each text stripped, the empty ones dropped. */
  function StrippedStrings(texts: seq<string>): (r: seq<string>)
    ensures |r| <= |texts|
    ensures forall i :: 0 <= i < |r| ==> r[i] != "" && IsStripped(r[i])
  {
    if texts == [] then []
    else
      var t := Strip(texts[0]);
      (if t == "" then [] else [t]) + StrippedStrings(texts[1..])
  }

  /** The stripped strings of consecutive runs of text nodes follow each other. */
  lemma {:induction false} StrippedStringsAppend(a: seq<string>, b: seq<string>)
    ensures StrippedStrings(a + b) == StrippedStrings(a) + StrippedStrings(b)
  {
    if a != [] {
      assert (a + b)[1..] == a[1..] + b;
      StrippedStringsAppend(a[1..], b);
    } else {
      assert a + b == b;
    }
  }

  /** Every kept text comes from a text node that strips to it. */
  lemma StrippedStringsSound(texts: seq<string>, t: string)
    requires t in StrippedStrings(texts)
    ensures exists i :: 0 <= i < |texts| && Strip(texts[i]) == t
  {
    var i := NodeOf(texts, t);
  }

  /** The index of a text node that strips to a kept text. */
  lemma {:induction false} NodeOf(texts: seq<string>, t: string) returns (i: nat)
    requires t in StrippedStrings(texts)
    ensures i < |texts| && Strip(texts[i]) == t
  {
    KeptFromHeadOrTail(texts, t);
    if t == Strip(texts[0]) {
      i := 0;
    } else {
      var j := NodeOf(texts[1..], t);
      i := j + 1;
    }
  }

  /** A kept text is the first node's, or kept from the later nodes. */
  lemma KeptFromHeadOrTail(texts: seq<string>, t: string)
    requires t in StrippedStrings(texts)
    ensures texts != [] && (t == Strip(texts[0]) || t in StrippedStrings(texts[1..]))
  {
    var head := Strip(texts[0]);
    assert StrippedStrings(texts) == (if head == "" then [] else [head]) + StrippedStrings(texts[1..]);
  }

  /** A text node that does not strip to "" gives a kept text. */
  lemma {:induction false} StrippedStringsComplete(texts: seq<string>, i: nat)
    requires i < |texts| && Strip(texts[i]) != ""
    ensures Strip(texts[i]) in StrippedStrings(texts)
  {
    var t := Strip(texts[i]);
    if i == 0 {
      assert StrippedStrings(texts)[0] == t;
    } else {
      var rest := texts[1..];
      assert rest[i - 1] == texts[i];
      StrippedStringsComplete(rest, i - 1);
      KeptInTail(texts, t);
    }
  }

  /** What the later text nodes keep, all the text nodes keep. */
  lemma KeptInTail(texts: seq<string>, t: string)
    requires texts != [] && t in StrippedStrings(texts[1..])
    ensures t in StrippedStrings(texts)
  {
    var head := Strip(texts[0]);
    assert StrippedStrings(texts) == (if head == "" then [] else [head]) + StrippedStrings(texts[1..]);
  }

  /** A text is among the stripped strings iff it is non-empty and some text node strips to it. */
  lemma StrippedStringsMember(texts: seq<string>, t: string)
    ensures t in StrippedStrings(texts) <==> t != "" && exists i :: 0 <= i < |texts| && Strip(texts[i]) == t
  {
    if t in StrippedStrings(texts) {
      StrippedStringsSound(texts, t);
    }
    if t != "" && exists i :: 0 <= i < |texts| && Strip(texts[i]) == t {
      var i :| 0 <= i < |texts| && Strip(texts[i]) == t;
      StrippedStringsComplete(texts, i);
    }
  }

  /** A fieldset whose legend mentions "Classification". */
  predicate IsClassificationGroup(f: Fieldset)
    ensures IsClassificationGroup(f) ==> f.legend.Some? && |f.legend.value| >= |"Classification"|
    ensures f.legend.Some? && StartsWith(f.legend.value, "Classification") ==> IsClassificationGroup(f)
  {
    f.legend.Some? && Contains(f.legend.value, "Classification")
  }

  /** A fieldset's classifications: the stripped strings of its field, when it is a classification group with one. */
  function FieldsetClassifications(f: Fieldset): seq<string> {
    if IsClassificationGroup(f) && f.field.Some? then StrippedStrings(f.field.value) else []
  }

  /** The classifications listed by the fieldsets, in document order. */
  function Classifications(fs: seq<Fieldset>): (r: seq<string>)
    ensures forall i :: 0 <= i < |r| ==> r[i] != "" && IsStripped(r[i])
    ensures |fs| == 1 ==> r == FieldsetClassifications(fs[0])
  {
    if fs == [] then []
    else FieldsetClassifications(fs[0]) + Classifications(fs[1..])
  }

  /** The classifications of consecutive fieldsets follow each other, in document order. */
  lemma {:induction false} ClassificationsAppend(a: seq<Fieldset>, b: seq<Fieldset>)
    ensures Classifications(a + b) == Classifications(a) + Classifications(b)
  {
    if a == [] {
      assert a + b == b;
    } else {
      assert (a + b)[1..] == a[1..] + b;
      ClassificationsAppend(a[1..], b);
    }
  }

  /** One more fieldset read gives its classifications after the earlier ones. */
  lemma ClassificationsStep(fs: seq<Fieldset>, j: nat)
    requires j < |fs|
    ensures Classifications(fs[..j + 1]) == Classifications(fs[..j]) + FieldsetClassifications(fs[j])
  {
    TakeOneMore(fs, j);
    ClassificationsAppend(fs[..j], [fs[j]]);
  }

  /**
   * A text is a classification iff some classification group with a field
   * has a text node that strips to it.
   */
  lemma {:induction false} ClassificationMember(fs: seq<Fieldset>, t: string)
    ensures t in Classifications(fs) <==>
      exists i :: 0 <= i < |fs| && IsClassificationGroup(fs[i]) && fs[i].field.Some?
        && t in StrippedStrings(fs[i].field.value)
  {
    if fs != [] {
      var rest := fs[1..];
      ClassificationMember(rest, t);
      if t in Classifications(rest) {
        var i :| 0 <= i < |rest| && IsClassificationGroup(rest[i]) && rest[i].field.Some?
          && t in StrippedStrings(rest[i].field.value);
        assert fs[i + 1] == rest[i];
      }
      if exists i :: 0 <= i < |fs| && IsClassificationGroup(fs[i]) && fs[i].field.Some?
          && t in StrippedStrings(fs[i].field.value) {
        var i :| 0 <= i < |fs| && IsClassificationGroup(fs[i]) && fs[i].field.Some?
          && t in StrippedStrings(fs[i].field.value);
        if i > 0 {
          assert rest[i - 1] == fs[i];
        }
      }
    }
  }

  /**
   * What `_parse_detail_html` computes. Its dictionary entry for
   * `_classifications` replaces any label of that name, so the text fields
   * never hold that key.
   */
  function Parsed(page: DetailPage): (d: ParsedDetail)
    ensures ClassificationsKey !in d.fields
    ensures forall k :: k in d.fields ==> k in Fill(page.labels) && d.fields[k] == Fill(page.labels)[k]
    ensures forall k :: k in Fill(page.labels) && k != ClassificationsKey ==> k in d.fields
    ensures d.classifications == Classifications(page.fieldsets)
  {
    ParsedDetail(Fill(page.labels) - {ClassificationsKey}, Classifications(page.fieldsets))
  }

  /** The second loop of `_parse_detail_html`: the classifications of the fieldsets, in document order. */
  method CollectClassifications(fieldsets: seq<Fieldset>) returns (classifications: seq<string>)
    ensures classifications == Classifications(fieldsets)
  {
    classifications := [];
    var j := 0;
    while j < |fieldsets|
      invariant 0 <= j <= |fieldsets|
      invariant classifications == Classifications(fieldsets[..j])
    {
      var fieldset := fieldsets[j];
      var found: seq<string> := [];
      if IsClassificationGroup(fieldset) && fieldset.field.Some? {
        found := StrippedStrings(fieldset.field.value);
      }
      ClassificationsStep(fieldsets, j);
      classifications := classifications + found;
      j := j + 1;
    }
    assert fieldsets[..j] == fieldsets;
  }

  /** `_parse_detail_html`: fill the fields and collect the classifications, in document order. */
  method ParseDetail(page: DetailPage) returns (d: ParsedDetail)
    ensures d == Parsed(page)
  {
    var fields: map<string, string> := map[];
    var i := 0;
    while i < |page.labels|
      invariant 0 <= i <= |page.labels|
      invariant fields == Fill(page.labels[..i])
    {
      var entry := page.labels[i];
      if entry.value.Some? {
        fields := fields[entry.key := entry.value.value];
      }
      assert page.labels[..i + 1][..i] == page.labels[..i];
      i := i + 1;
    }
    assert page.labels[..i] == page.labels;
    var classifications := CollectClassifications(page.fieldsets);
    d := ParsedDetail(fields - {ClassificationsKey}, classifications);
  }

  /**
   * In the parsed fields, a label has the value of the last `display-label`
   * of that name that has a `display-field` sibling.
   */
  lemma ParsedFieldIsLastLabel(page: DetailPage, k: string)
    requires k != ClassificationsKey
    ensures k in Parsed(page).fields <==> exists i :: 0 <= i < |page.labels| && Assigns(page.labels[i], k)
    ensures k in Parsed(page).fields ==>
      exists i :: 0 <= i < |page.labels| && page.labels[i] == Entry(k, Some(Parsed(page).fields[k]))
        && forall j :: i < j < |page.labels| ==> !Assigns(page.labels[j], k)
  {
    FilledIffAssigned(page.labels, k);
    if k in Parsed(page).fields {
      LastAssignmentWins(page.labels, k);
    }
  }

  // ---------------------------------------------------------------- status and result

  /**
   * The status rule of this registry, applied in order to the stripped text:
   * "License Not Valid" means INACTIVE, then "Archived" means ARCHIVED, then
   * empty or "Active" means ACTIVE; anything else is kept, upper-cased.
   */
  function NormalizeStatus(raw: string): (status: string)
    ensures status != "" && NoLower(status)
  {
    var s := Strip(raw);
    if Contains(s, "License Not Valid") then "INACTIVE"
    else if Contains(s, "Archived") then "ARCHIVED"
    else if s == "" || Contains(s, "Active") then "ACTIVE"
    else Upper(s)
  }

  /** The four outcomes of the status rule, one per case of the stripped text. */
  lemma NormalizeStatusRule(raw: string)
    ensures var s, status := Strip(raw), NormalizeStatus(raw);
      && (Contains(s, "License Not Valid") ==> status == "INACTIVE")
      && (!Contains(s, "License Not Valid") && Contains(s, "Archived") ==> status == "ARCHIVED")
      && ((!Contains(s, "License Not Valid") && !Contains(s, "Archived")
           && (s == "" || Contains(s, "Active"))) ==> status == "ACTIVE")
      && ((!Contains(s, "License Not Valid") && !Contains(s, "Archived")
           && s != "" && !Contains(s, "Active")) ==> status == Upper(s))
  { }

  /** A non-empty, stripped, upper-case status is left as it is. */
  lemma CanonicalStatusIsFixed(u: string)
    requires u != "" && IsStripped(u) && NoLower(u)
    ensures NormalizeStatus(u) == u
  {
    NoLowerExcludes(u, "License Not Valid", 1);
    NoLowerExcludes(u, "Archived", 1);
    NoLowerExcludes(u, "Active", 1);
  }

  /** Normalising a normalised status changes nothing. */
  lemma NormalizeStatusIdempotent(raw: string)
    ensures NormalizeStatus(NormalizeStatus(raw)) == NormalizeStatus(raw)
  {
    var status := NormalizeStatus(raw);
    var s := Strip(raw);
    if !Contains(s, "License Not Valid") && !Contains(s, "Archived") && !(s == "" || Contains(s, "Active")) {
      UpperKeepsStripped(s);
    }
    CanonicalStatusIsFixed(status);
  }

  /** An archived license reads ARCHIVED. */
  lemma ArchivedExample()
    ensures NormalizeStatus("Archived") == "ARCHIVED"
  {
    assert Strip("Archived") == "Archived";
    ContainsAt("Archived", "Archived", 0);
  }

  /** A status that begins "License Not Valid" (revoked, suspended, ...) reads INACTIVE. */
  lemma NotValidReadsInactive(raw: string)
    requires StartsWith(Strip(raw), "License Not Valid")
    ensures NormalizeStatus(raw) == "INACTIVE"
  {
    assert Strip(raw)[0..] == Strip(raw);
    ContainsAt(Strip(raw), "License Not Valid", 0);
  }

  /** "Active" with any whitespace around it reads ACTIVE. */
  lemma PaddedActiveReadsActive(pre: string, post: string)
    requires forall k :: 0 <= k < |pre| ==> IsSpace(pre[k])
    requires forall k :: 0 <= k < |post| ==> IsSpace(post[k])
    ensures NormalizeStatus(pre + "Active" + post) == "ACTIVE"
  {
    var s := "Active";
    StripPadded(pre, s, post);
    ContainsAt(s, s, 0);
  }

  /** A detail page with no Status label reads ACTIVE. */
  lemma MissingStatusReadsActive(licenseNumber: string, detailBody: string, d: ParsedDetail, violations: Option<string>)
    requires "Status" !in d.fields
    ensures Assemble(licenseNumber, detailBody, d, violations).status == "ACTIVE"
  {
    assert Strip("") == "";
  }

  /**
   * The violations text: the stripped matters page when the request succeeded
   * and the page is not blank; a failed request is swallowed.
   */
  function Violations(matters: Fetch): (v: Option<string>)
    ensures v.Some? <==> matters.Ok? && Strip(matters.body) != ""
    ensures v.Some? ==> v.value == Strip(matters.body)
  {
    match matters
    case Err(_) => None
    case Ok(body) => if Strip(body) != "" then Some(Strip(body)) else None
  }

  /** The success dictionary built from the detail page and the violations. */
  function Assemble(licenseNumber: string, detailBody: string, d: ParsedDetail, violations: Option<string>)
    : (r: LookupResult)
    ensures r.Found? && r.violations == violations
    ensures r.licenseNumber == (if "License #" in d.fields then d.fields["License #"] else licenseNumber)
    ensures r.status == NormalizeStatus(if "Status" in d.fields then d.fields["Status"] else "")
    ensures r.holderName == Get(d.fields, "Name") && r.licenseClass == Get(d.fields, "License Limitation")
    ensures r.expirationDate == Get(d.fields, "Expiration Date") && r.initialDate == Get(d.fields, "First Issued Date")
    ensures r.firmType == Get(d.fields, "Account Type") && r.address == Get(d.fields, "Address")
    ensures r.specialties.None? <==> d.classifications == []
    ensures r.specialties.Some? ==> r.specialties.value == Join(d.classifications, Separator)
    ensures |r.rawHtml| <= RawExcerptLength && |r.rawHtml| <= |detailBody|
            && r.rawHtml == detailBody[..|r.rawHtml|]
    ensures r.rawHtml == RawExcerpt(detailBody)
  {
    Found(
      licenseNumber := Get(d.fields, "License #").GetOr(licenseNumber),
      holderName := Get(d.fields, "Name"),
      licenseClass := Get(d.fields, "License Limitation"),
      status := NormalizeStatus(Get(d.fields, "Status").GetOr("")),
      expirationDate := Get(d.fields, "Expiration Date"),
      initialDate := Get(d.fields, "First Issued Date"),
      firmType := Get(d.fields, "Account Type"),
      specialties := if d.classifications != [] then Some(Join(d.classifications, Separator)) else None,
      address := Get(d.fields, "Address"),
      violations := violations,
      rawHtml := RawExcerpt(detailBody))
  }

  /** The violations text is the only part of the success record the matters page feeds. */
  lemma AssembleViolations(licenseNumber: string, detailBody: string, d: ParsedDetail,
                           violations: Option<string>, others: Option<string>)
    ensures var r := Assemble(licenseNumber, detailBody, d, violations);
      r.Found? && r.(violations := others) == Assemble(licenseNumber, detailBody, d, others)
  {
  }

  /**
   * The requests `lookup_license` makes once it has a key: the detail page,
   * whose failure is the lookup's failure with its error text, then the
   * matters page, whose answer only ever fills in the violations.
   */
  function DetailStep(reg: Registry, licenseNumber: string, key: string): (o: Outcome)
    ensures |o.requests| >= 1 && o.requests[0] == DetailGet(key)
    ensures reg.detail(key).Err? ==>
      o.requests == [DetailGet(key)] && o.result == Failed(licenseNumber, reg.detail(key).message)
    ensures reg.detail(key).Ok? ==>
      var body := reg.detail(key).body;
      && o.requests == [DetailGet(key), MattersGet(key)]
      && o.result == Assemble(licenseNumber, body, Parsed(reg.detailPage(body)), Violations(reg.matters(key)))
  {
    match reg.detail(key)
    case Err(e) => Outcome(Failed(licenseNumber, e), [DetailGet(key)])
    case Ok(body) =>
      Outcome(Assemble(licenseNumber, body, Parsed(reg.detailPage(body)), Violations(reg.matters(key))),
              [DetailGet(key), MattersGet(key)])
  }

  /**
   * `lookup_license`: the search by account number comes first; no key means
   * "License not found" and no further request; otherwise the detail step
   * decides the result.
   */
  function Lookup(reg: Registry, licenseNumber: string): (o: Outcome)
    ensures |o.requests| >= 1
    ensures o.requests[0] == SearchPost(ByAccountNumber(StripPrefix(licenseNumber)))
    ensures EncryptedKey(reg, licenseNumber).None? ==>
      o.result == Failed(licenseNumber, NotFoundMessage) && |o.requests| == 1
    ensures EncryptedKey(reg, licenseNumber).Some? ==>
      var step := DetailStep(reg, licenseNumber, EncryptedKey(reg, licenseNumber).value);
      o.result == step.result && o.requests[1..] == step.requests
    ensures o.result.Failed? ==> o.result.licenseNumber == licenseNumber
  {
    var search := SearchPost(ByAccountNumber(StripPrefix(licenseNumber)));
    match EncryptedKey(reg, licenseNumber)
    case None => Outcome(Failed(licenseNumber, NotFoundMessage), [search])
    case Some(key) =>
      var step := DetailStep(reg, licenseNumber, key);
      Outcome(step.result, [search] + step.requests)
  }

  /** The lookup succeeds exactly when the search yields a key and the detail page arrives. */
  lemma LookupSucceedsIff(reg: Registry, licenseNumber: string)
    ensures Lookup(reg, licenseNumber).result.Found? <==>
      EncryptedKey(reg, licenseNumber).Some? && reg.detail(EncryptedKey(reg, licenseNumber).value).Ok?
  {
  }

  /**
   * A search answer without any `ShowAccountDetails(` call ends the lookup:
   * "License not found", and the search is the only request made.
   */
  lemma NoKeyNoFurtherRequests(reg: Registry, licenseNumber: string)
    requires reg.search(ByAccountNumber(StripPrefix(licenseNumber))).Ok?
    requires !Contains(reg.search(ByAccountNumber(StripPrefix(licenseNumber))).body, Marker)
    ensures Lookup(reg, licenseNumber)
         == Outcome(Failed(licenseNumber, NotFoundMessage),
                    [SearchPost(ByAccountNumber(StripPrefix(licenseNumber)))])
  {
    NoMarkerNoKey(reg.search(ByAccountNumber(StripPrefix(licenseNumber))).body);
  }

  /**
   * Whatever the matters endpoint answers, the lookup makes the same requests
   * and returns the same result up to the violations text.
   */
  lemma MattersNeverDecide(reg: Registry, licenseNumber: string, matters: string -> Fetch)
    ensures Lookup(reg.(matters := matters), licenseNumber).requests == Lookup(reg, licenseNumber).requests
    ensures Lookup(reg.(matters := matters), licenseNumber).result.Found?
        <==> Lookup(reg, licenseNumber).result.Found?
    ensures Lookup(reg, licenseNumber).result.Found? ==>
      Lookup(reg.(matters := matters), licenseNumber).result
        == Lookup(reg, licenseNumber).result.(violations := Lookup(reg.(matters := matters), licenseNumber).result.violations)
  {
    var other := reg.(matters := matters);
    assert EncryptedKey(other, licenseNumber) == EncryptedKey(reg, licenseNumber);
    match EncryptedKey(reg, licenseNumber) {
      case None =>
      case Some(key) =>
        if reg.detail(key).Ok? {
          var body := reg.detail(key).body;
          AssembleViolations(licenseNumber, body, Parsed(reg.detailPage(body)),
                             Violations(reg.matters(key)), Violations(matters(key)));
        }
    }
  }

  // ---------------------------------------------------------------- name search

  /** One search row with at least three cells, as a hit. */
  function HitOf(row: seq<Cell>): (hit: SearchHit)
    requires |row| >= 3
    ensures row[0].link.Some? ==> hit.licenseNumber == row[0].link.value
    ensures row[0].link.None? ==> hit.licenseNumber == row[0].text
    ensures hit.name == row[2].text && hit.licenseType == row[1].text
    ensures hit.address.None? && hit.board == Board
  {
    SearchHit(row[0].link.GetOr(row[0].text), row[2].text, None, row[1].text, Board)
  }

  /** The hit a row gives: one when it has at least three cells, none otherwise. */
  function RowHits(row: seq<Cell>): seq<SearchHit> {
    if |row| >= 3 then [HitOf(row)] else []
  }

  /** The hits of the rows that have at least three cells, in row order. */
  function Hits(rows: seq<seq<Cell>>): (hits: seq<SearchHit>)
    ensures |hits| <= |rows|
    ensures forall i :: 0 <= i < |hits| ==> hits[i].board == Board
  {
    if rows == [] then [] else RowHits(rows[0]) + Hits(rows[1..])
  }

  /** The hits of consecutive runs of rows follow each other. */
  lemma {:induction false} HitsAppend(a: seq<seq<Cell>>, b: seq<seq<Cell>>)
    ensures Hits(a + b) == Hits(a) + Hits(b)
  {
    if a == [] {
      assert a + b == b;
    } else {
      assert (a + b)[1..] == a[1..] + b;
      HitsAppend(a[1..], b);
    }
  }

  /**
   * Each row keeps its place among the hits: a row with at least three
   * cells gives its hit between those of the rows before and after it, and a
   * shorter row gives none.
   */
  lemma FullRowsAreKept(rows: seq<seq<Cell>>, j: nat)
    requires j < |rows|
    ensures |rows[j]| >= 3 ==> Hits(rows) == Hits(rows[..j]) + [HitOf(rows[j])] + Hits(rows[j + 1..])
    ensures |rows[j]| < 3 ==> Hits(rows) == Hits(rows[..j]) + Hits(rows[j + 1..])
  {
    HitsAround(rows, j);
    var before, after := Hits(rows[..j]), Hits(rows[j + 1..]);
    if RowHits(rows[j]) == [] {
      assert before + [] == before;
    }
  }

  /** The hits of a row put in front of others. */
  lemma HitsCons(row: seq<Cell>, rest: seq<seq<Cell>>)
    ensures Hits([row] + rest) == RowHits(row) + Hits(rest)
  {
    assert ([row] + rest)[1..] == rest;
  }

  /** One more row scanned gives that row's hits after the earlier ones. */
  lemma HitsStep(rows: seq<seq<Cell>>, i: nat)
    requires i < |rows|
    ensures Hits(rows[..i + 1]) == Hits(rows[..i]) + RowHits(rows[i])
  {
    TakeOneMore(rows, i);
    HitsAppend(rows[..i], [rows[i]]);
    HitsCons(rows[i], []);
    assert [rows[i]] + [] == [rows[i]];
  }

  /** The hits of the rows around row `j`, and row `j`'s own. */
  lemma HitsAround(rows: seq<seq<Cell>>, j: nat)
    requires j < |rows|
    ensures Hits(rows) == Hits(rows[..j]) + RowHits(rows[j]) + Hits(rows[j + 1..])
  {
    SplitAround(rows, j);
    HitsAppend(rows[..j], [rows[j]] + rows[j + 1..]);
    HitsCons(rows[j], rows[j + 1..]);
  }

  /** Every hit is the reading of some row with at least three cells. */
  lemma {:induction false} HitsComeFromRows(rows: seq<seq<Cell>>, i: nat)
    requires i < |Hits(rows)|
    ensures exists j :: 0 <= j < |rows| && |rows[j]| >= 3 && Hits(rows)[i] == HitOf(rows[j])
  {
    var rest := rows[1..];
    var first := RowHits(rows[0]);
    if i < |first| {
      assert Hits(rows)[i] == HitOf(rows[0]);
    } else {
      HitsComeFromRows(rest, i - |first|);
      var j :| 0 <= j < |rest| && |rest[j]| >= 3 && Hits(rest)[i - |first|] == HitOf(rest[j]);
      assert rows[j + 1] == rest[j];
    }
  }

  /**
   * `search_licenses`: search by company name; a failed request gives no
   * hits; otherwise the first `limit` rows (Python slicing) are scanned.
   * Callers that omit `limit` get 20.
   */
  method Search(reg: Registry, query: string, limit: int) returns (hits: seq<SearchHit>)
    ensures reg.search(ByCompanyName(query)).Err? ==> hits == []
    ensures reg.search(ByCompanyName(query)).Ok? ==>
      hits == Hits(SliceTo(reg.searchRows(reg.search(ByCompanyName(query)).body), limit))
    ensures limit >= 0 ==> |hits| <= limit
    ensures forall i :: 0 <= i < |hits| ==> hits[i].board == Board
  {
    hits := [];
    var response := reg.search(ByCompanyName(query));
    if response.Err? {
      return;
    }
    var rows := SliceTo(reg.searchRows(response.body), limit);
    var i := 0;
    while i < |rows|
      invariant 0 <= i <= |rows|
      invariant hits == Hits(rows[..i])
    {
      var cells := rows[i];
      if |cells| >= 3 {
        var licenseNumber := if cells[0].link.Some? then cells[0].link.value else cells[0].text;
        hits := hits + [SearchHit(licenseNumber, cells[2].text, None, cells[1].text, Board)];
      }
      HitsStep(rows, i);
      i := i + 1;
    }
    assert rows[..i] == rows;
  }
}
