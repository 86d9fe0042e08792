/**
  The contact form's hand-off to the mail client: the submitted fields are
  laid out as body lines, empty lines are dropped, the rest are joined with an
  encoded line break, and the result goes into a fixed `mailto:` URL.

  Field values arrive here already trimmed and percent-encoded. Percent
  encoding maps only the empty string to the empty string, so testing an
  encoded value for emptiness is the same as testing the trimmed input.
*/
module Mailto {
  import opened Wrappers

  const RECIPIENT: string := "elevyxagency@gmail.com"

  /** An encoded CR LF, the separator between body lines. */
  const LINE_BREAK: string := "%0D%0A"

  const PROMPT: string := "What they want to automate:"
  const NOT_PROVIDED: string := "(not provided)"

  /** The submitted form, each field trimmed and percent-encoded. */
  datatype Form = Form(name: string, email: string, company: string, message: string)

  // ---------------------------------------------------------------------
  // Lines, filtering and joining
  // ---------------------------------------------------------------------

  /** The body lines before filtering, blank separator line included. */
  function RawLines(f: Form): (r: seq<string>)
    ensures |r| == 6
    ensures r[3] == ""                                  // the blank separator line
    ensures r[2] == "" <==> f.company == ""             // a company line only when a company is given
    ensures r[0] != "" && r[1] != "" && r[4] != "" && r[5] != ""
    ensures f.message != "" ==> r[5] == f.message
  {
    [ "Name: " + f.name,
      "Email: " + f.email,
      if f.company != "" then "Company: " + f.company else "",
      "",
      PROMPT,
      if f.message != "" then f.message else NOT_PROVIDED ]
  }

  /** Array filtering with `Boolean` as the test: keep the non-empty strings, in order. */
  function KeepNonEmpty(lines: seq<string>): (r: seq<string>)
    ensures |r| <= |lines|
    ensures forall i :: 0 <= i < |r| ==> r[i] != ""
    ensures forall s :: s in r <==> s in lines && s != ""
  {
    if |lines| == 0 then []
    else if lines[0] == "" then KeepNonEmpty(lines[1..])
    else [lines[0]] + KeepNonEmpty(lines[1..])
  }

  /**
    Filtering is applied element by element: it distributes over
    concatenation, so it keeps the order and the repetitions of what it keeps.
  */
  lemma {:induction false} KeepNonEmptyAppend(a: seq<string>, b: seq<string>)
    ensures KeepNonEmpty(a + b) == KeepNonEmpty(a) + KeepNonEmpty(b)
    ensures KeepNonEmpty([]) == []
    ensures forall s :: KeepNonEmpty([s]) == if s == "" then [] else [s]
  {
    forall s: string
      ensures KeepNonEmpty([s]) == if s == "" then [] else [s]
    {
      assert [s][1..] == [];
    }
    if |a| > 0 {
      assert (a + b)[0] == a[0];
      assert (a + b)[1..] == a[1..] + b;
      KeepNonEmptyAppend(a[1..], b);
    } else {
      assert a + b == b;
    }
  }

  /** Filtering keeps every non-empty string as many times as it occurs, and drops every empty one. */
  lemma {:induction false} KeepNonEmptyCounts(lines: seq<string>)
    ensures multiset(KeepNonEmpty(lines)) == multiset(lines)["" := 0]
  {
    if |lines| > 0 {
      assert lines == [lines[0]] + lines[1..];
      KeepNonEmptyCounts(lines[1..]);
    }
  }

  /** Array joining: the elements with `sep` between each two neighbours. */
  function Join(lines: seq<string>, sep: string): (r: string)
    ensures |lines| == 0 ==> r == ""
    ensures |lines| > 0 ==> lines[0] <= r
    ensures |lines| > 1 ==> lines[0] + sep <= r
  {
    if |lines| == 0 then ""
    else if |lines| == 1 then lines[0]
    else lines[0] + sep + Join(lines[1..], sep)
  }

  /** The body lines actually sent. */
  function BodyLines(f: Form): seq<string>
  {
    KeepNonEmpty(RawLines(f))
  }

  /**
    The sent lines are exactly: name, email, the company only when given, the
    prompt, and the message or a placeholder. The blank separator line is always
    dropped, so there are 5 lines with a company and 4 without.
  */
  lemma BodyLinesShape(f: Form)
    ensures BodyLines(f) ==
      ["Name: " + f.name, "Email: " + f.email] +
      (if f.company != "" then ["Company: " + f.company] else []) +
      [PROMPT, if f.message != "" then f.message else NOT_PROVIDED]
    ensures |BodyLines(f)| == if f.company != "" then 5 else 4
    ensures "" !in BodyLines(f)
  {
    var raw := RawLines(f);
    assert raw[0] != "" && raw[1] != "" && raw[3] == "" && raw[4] != "" && raw[5] != "";
    assert KeepNonEmpty(raw[5..]) == [raw[5]] by {
      assert raw[5..][1..] == [];
    }
    assert KeepNonEmpty(raw[4..]) == [raw[4], raw[5]] by {
      assert raw[4..][1..] == raw[5..];
    }
    assert KeepNonEmpty(raw[3..]) == [raw[4], raw[5]] by {
      assert raw[3..][1..] == raw[4..];
    }
    assert KeepNonEmpty(raw[2..]) == (if raw[2] != "" then [raw[2]] else []) + [raw[4], raw[5]] by {
      assert raw[2..][1..] == raw[3..];
    }
    assert KeepNonEmpty(raw[1..]) == [raw[1]] + KeepNonEmpty(raw[2..]) by {
      assert raw[1..][1..] == raw[2..];
    }
  }

  /**
    The body of the draft: the sent lines joined with encoded line breaks. It
    opens with the name line and the email line, each followed by a line break.
  */
  function Body(f: Form): (r: string)
    ensures ("Name: " + f.name + LINE_BREAK + "Email: " + f.email + LINE_BREAK) <= r
  {
    BodyLinesShape(f);
    var lines := BodyLines(f);
    var first, second := "Name: " + f.name + LINE_BREAK, "Email: " + f.email + LINE_BREAK;
    assert first <= Join(lines, LINE_BREAK);
    assert second <= Join(lines[1..], LINE_BREAK);
    assert Join(lines, LINE_BREAK) == first + Join(lines[1..], LINE_BREAK);
    Join(lines, LINE_BREAK)
  }

  /**
    The URL handed to the browser; `subject` is the encoded subject line. It is
    addressed to the fixed recipient, carries the subject right after the
    recipient part, and ends with the body.
  */
  function MailtoUrl(subject: string, f: Form): (url: string)
    ensures MailtoPrefix() <= url
    ensures |MailtoPrefix()| + |subject| <= |url|
    ensures url[|MailtoPrefix()|..|MailtoPrefix()| + |subject|] == subject
    ensures |Body(f)| <= |url| && url[|url| - |Body(f)|..] == Body(f)
  {
    MailtoPrefix() + subject + "&body=" + Body(f)
  }

  function MailtoPrefix(): string
  {
    "mailto:" + RECIPIENT + "?subject="
  }

  // ---------------------------------------------------------------------
  // Reading the draft back, as a mail client does
  // ---------------------------------------------------------------------

  /** `sep` occurs in `s` starting at index `j`. */
  predicate OccursAt(s: string, sep: string, j: nat)
  {
    j + |sep| <= |s| && s[j..j + |sep|] == sep
  }

  /** The first occurrence of `sep` in `s` at or after `from`. */
  function FindFrom(s: string, sep: string, from: nat): (r: Option<nat>)
    requires from <= |s|
    ensures r.Some? ==> from <= r.value && OccursAt(s, sep, r.value)
    ensures r.Some? ==> forall j :: from <= j < r.value ==> !OccursAt(s, sep, j)
    ensures r.None? ==> forall j :: from <= j ==> !OccursAt(s, sep, j)
    decreases |s| - from
  {
    if from + |sep| > |s| then None
    else if s[from..from + |sep|] == sep then Some(from)
    else FindFrom(s, sep, from + 1)
  }

  /** Splitting at every occurrence of a non-empty separator. */
  function SplitOn(s: string, sep: string): (r: seq<string>)
    requires sep != ""
    ensures |r| > 0
    decreases |s|
  {
    match FindFrom(s, sep, 0)
    case None => [s]
    case Some(i) => [s[..i]] + SplitOn(s[i + |sep|..], sep)
  }

  /** The line-break separator does not occur in `s`. */
  ghost predicate NoLineBreak(s: string)
  {
    forall j: nat :: !OccursAt(s, LINE_BREAK, j)
  }

  /** When nothing before `a`'s end starts a `sep`, the first `sep` of `a + sep + rest` is the one after `a`. */
  lemma FirstAfter(a: string, sep: string, rest: string)
    requires forall j: nat :: j < |a| ==> !OccursAt(a + sep + rest, sep, j)
    ensures FindFrom(a + sep + rest, sep, 0) == Some(|a|)
  {
    var s := a + sep + rest;
    assert s[|a|..|a| + |sep|] == sep;
    assert OccursAt(s, sep, |a|);
  }

  /**
    The encoded line break cannot overlap itself: if a line does not contain
    it, then in `line + LINE_BREAK + rest` no occurrence starts inside the line.
  */
  lemma NoBreakInside(a: string, rest: string)
    requires NoLineBreak(a)
    ensures forall j: nat :: j < |a| ==> !OccursAt(a + LINE_BREAK + rest, LINE_BREAK, j)
  {
    var s := a + LINE_BREAK + rest;
    forall j: nat | j < |a|
      ensures !OccursAt(s, LINE_BREAK, j)
    {
      if j + 6 <= |a| {
        assert s[j..j + 6] == a[j..j + 6];
        assert !OccursAt(a, LINE_BREAK, j);
      } else if j + 6 <= |s| {
        // the occurrence would straddle the end of `a`; find a mismatch
        var k := |a| - j;
        var m := if k == 3 then 5 else k;
        assert s[j + m] == LINE_BREAK[m - k];
        assert s[j..j + 6][m] != LINE_BREAK[m];
      }
    }
  }

  /**
    Splitting a joined list at the encoded line break gives the list back,
    provided no line contains an encoded line break itself.
  */
  lemma {:induction false} SplitJoin(lines: seq<string>)
    requires |lines| > 0
    requires forall i :: 0 <= i < |lines| ==> NoLineBreak(lines[i])
    ensures SplitOn(Join(lines, LINE_BREAK), LINE_BREAK) == lines
  {
    if |lines| == 1 {
      assert FindFrom(lines[0], LINE_BREAK, 0).None?;
    } else {
      var rest := Join(lines[1..], LINE_BREAK);
      var s := lines[0] + LINE_BREAK + rest;
      NoBreakInside(lines[0], rest);
      FirstAfter(lines[0], LINE_BREAK, rest);
      assert s[..|lines[0]|] == lines[0];
      assert s[|lines[0]| + |LINE_BREAK|..] == rest;
      SplitJoin(lines[1..]);
    }
  }

  /**
    A mail client splitting the body at CR LF recovers exactly the sent lines,
    unless a field itself contains an encoded CR LF.
  */
  lemma BodyRoundTrip(f: Form)
    requires NoLineBreak(f.name) && NoLineBreak(f.email) && NoLineBreak(f.company) && NoLineBreak(f.message)
    ensures SplitOn(Body(f), LINE_BREAK) == BodyLines(f)
  {
    BodyLinesShape(f);
    var lines := BodyLines(f);
    forall i | 0 <= i < |lines|
      ensures NoLineBreak(lines[i])
    {
      NoBreakWithLabel("Name: ", f.name);
      NoBreakWithLabel("Email: ", f.email);
      NoBreakWithLabel("Company: ", f.company);
      NoPercentNoBreak(PROMPT);
      NoPercentNoBreak(NOT_PROVIDED);
    }
    SplitJoin(lines);
  }

  /** A tag without '%' in front of a line does not create a line break. */
  lemma NoBreakWithLabel(tag: string, v: string)
    requires '%' !in tag
    requires NoLineBreak(v)
    ensures NoLineBreak(tag + v)
  {
    var s := tag + v;
    forall j: nat
      ensures !OccursAt(s, LINE_BREAK, j)
    {
      if j >= |tag| {
        var i: nat := j - |tag|;
        assert !OccursAt(v, LINE_BREAK, i);
        if j + 6 <= |s| {
          assert s[j..j + 6] == v[i..i + 6];
        }
      } else if j + 6 <= |s| {
        assert s[j..j + 6][0] == tag[j];
      }
    }
  }

  /** A string without '%' contains no encoded line break. */
  lemma NoPercentNoBreak(s: string)
    requires '%' !in s
    ensures NoLineBreak(s)
  {
    forall j: nat
      ensures !OccursAt(s, LINE_BREAK, j)
    {
      if j + 6 <= |s| {
        assert s[j..j + 6][0] == s[j];
      }
    }
  }

  /**
    How the mail client reads the URL: the fixed recipient prefix, then the
    subject up to the first "&body=", then the body.
  */
  function ParseMailto(url: string): Option<(string, string)>
  {
    var prefix := MailtoPrefix();
    if |url| < |prefix| || url[..|prefix|] != prefix then None
    else
      var query := url[|prefix|..];
      match FindFrom(query, "&body=", 0)
      case None => None
      case Some(i) => Some((query[..i], query[i + 6..]))
  }

  /**
    The draft opens addressed to the fixed recipient with exactly the given
    subject and body, as long as the subject contains no '&' (an encoded
    subject never does).
  */
  lemma MailtoRoundTrip(subject: string, f: Form)
    requires '&' !in subject
    ensures ParseMailto(MailtoUrl(subject, f)) == Some((subject, Body(f)))
  {
    ParseQuery(subject, Body(f));
  }

  /** Parsing `prefix + subject + "&body=" + body` splits at the "&body=" that follows the subject. */
  lemma ParseQuery(subject: string, body: string)
    requires '&' !in subject
    ensures ParseMailto(MailtoPrefix() + subject + "&body=" + body) == Some((subject, body))
  {
    var prefix := MailtoPrefix();
    var query := subject + "&body=" + body;
    var url := prefix + query;
    assert url == prefix + subject + "&body=" + body;
    assert url[..|prefix|] == prefix;
    assert url[|prefix|..] == query;
    forall j: nat | j < |subject|
      ensures !OccursAt(query, "&body=", j)
    {
      assert query[j] == subject[j];
    }
    FirstAfter(subject, "&body=", body);
    assert query[..|subject|] == subject;
    assert query[|subject| + 6..] == body;
  }
}
