/** The submit handler of the appointment form, up to the hand-off: the
    form's entries are gathered into a record, formatted into a WhatsApp
    message, and the message is put into a `wa.me` link. Date formatting,
    the clock and percent-encoding are supplied by the caller. */
module Booking {
  import opened Options
  import SingleChild

  const WhatsAppNumber := "917176660645"
  const UrlPrefix := "https://wa.me/" + WhatsAppNumber + "?text="
  const NoEmail := "Not provided"
  const NoNotes := "None"
  const SuccessText := "Appointment request received! Redirecting to WhatsApp..."

  /** The record the submit handler builds by storing each form entry
      under its key, in order. */
  function Collected(entries: seq<(string, string)>): (r: map<string, string>)
    ensures |r| <= |entries|
    decreases |entries|
  {
    if entries == [] then map[]
    else
      var (key, value) := entries[|entries| - 1];
      Collected(entries[..|entries| - 1])[key := value]
  }

  /** Every key of the form, and no other, is in the record. */
  lemma {:induction false} CollectedKeys(entries: seq<(string, string)>, key: string)
    ensures key in Collected(entries) <==> exists i :: 0 <= i < |entries| && entries[i].0 == key
    decreases |entries|
  {
    if entries != [] {
      var prefix := entries[..|entries| - 1];
      CollectedKeys(prefix, key);
      if exists i :: 0 <= i < |entries| && entries[i].0 == key {
        var i :| 0 <= i < |entries| && entries[i].0 == key;
        if i < |prefix| {
          assert prefix[i] == entries[i];
        }
      }
    }
  }

  /** A key holds the value of its last entry: later entries overwrite
      earlier ones. */
  lemma {:induction false} CollectedLastWins(entries: seq<(string, string)>, i: nat)
    requires i < |entries|
    requires forall j :: i < j < |entries| ==> entries[j].0 != entries[i].0
    ensures entries[i].0 in Collected(entries) && Collected(entries)[entries[i].0] == entries[i].1
    decreases |entries|
  {
    if i < |entries| - 1 {
      var prefix := entries[..|entries| - 1];
      assert prefix[i] == entries[i];
      CollectedLastWins(prefix, i);
    }
  }

  /** The `forEach` loop itself. */
  method CollectFields(entries: seq<(string, string)>) returns (data: map<string, string>)
    ensures data == Collected(entries)
  {
    data := map[];
    var n := 0;
    while n < |entries|
      invariant 0 <= n <= |entries|
      invariant data == Collected(entries[..n])
    {
      assert entries[..n + 1][..n] == entries[..n];
      var (key, value) := entries[n];
      data := data[key := value];
      n := n + 1;
    }
    assert entries[..n] == entries;
  }

  function Field(data: map<string, string>, key: string): Option<string> {
    if key in data then Some(data[key]) else None
  }

  /** A field interpolated into a template string: a missing one prints as
      `undefined`. */
  function Show(v: Option<string>): string {
    match v
    case None => "undefined"
    case Some(s) => s
  }

  /** `v || fallback`: a missing or empty field gives the fallback. */
  function OrElse(v: Option<string>, fallback: string): (r: string)
    ensures v.Some? && v.value != "" ==> r == v.value
    ensures v.None? || v.value == "" ==> r == fallback
  {
    match v
    case Some(s) => if s != "" then s else fallback
    case None => fallback
  }

  /** Lines joined with a newline between each two. */
  function JoinLines(lines: seq<string>): string
    decreases |lines|
  {
    if lines == [] then ""
    else if |lines| == 1 then lines[0]
    else lines[0] + "\n" + JoinLines(lines[1..])
  }

  /** The lines of the booking message template, first and last included:
      the template opens with a newline and closes with a newline and four
      spaces. `formatDate` stands for the long Indian-English date format
      of the date field, and `now` for the submission time in the same
      locale. */
  function MessageLines(data: map<string, string>, formatDate: Option<string> -> string, now: string): (r: seq<string>)
    ensures |r| == 19 && r[0] == "" && r[|r| - 1] == "    "
  {
    [ "",
      "\U{1F3E5} *NEW APPOINTMENT REQUEST*",
      "",
      "\U{1F464} *Patient Details:*",
      "Name: " + Show(Field(data, "name")),
      "Phone: " + Show(Field(data, "phone")),
      "Email: " + OrElse(Field(data, "email"), NoEmail),
      "",
      "\U{1F4C5} *Appointment Details:*",
      "Date: " + formatDate(Field(data, "date")),
      "Time: " + Show(Field(data, "time")),
      "Department: " + Show(Field(data, "department")),
      "",
      "\U{1F4DD} *Additional Notes:*",
      OrElse(Field(data, "message"), NoNotes),
      "",
      "---",
      "Booking made via website on " + now,
      "    " ]
  }

  function Message(data: map<string, string>, formatDate: Option<string> -> string, now: string): (r: string)
    ensures |r| > 0 && r[0] == '\n'
  {
    var lines := MessageLines(data, formatDate, now);
    assert JoinLines(lines) == lines[0] + "\n" + JoinLines(lines[1..]);
    JoinLines(lines)
  }

  /** The deep link; `encode` stands for `encodeURIComponent`. */
  function WhatsAppUrl(message: string, encode: string -> string): (r: string)
    ensures UrlPrefix <= r && r[|UrlPrefix|..] == encode(message)
  {
    UrlPrefix + encode(message)
  }

  /** Reading the `text` parameter back out of a deep link. */
  function MessageFromUrl(url: string, decode: string -> string): (r: Option<string>)
    ensures r.Some? <==> UrlPrefix <= url
  {
    if UrlPrefix <= url then Some(decode(url[|UrlPrefix|..])) else None
  }

  predicate Contains(s: string, t: string) {
    exists i :: 0 <= i <= |s| && t <= s[i..]
  }

  /** `line` stands in `s` as a whole line, between two newlines. */
  predicate OnOwnLine(s: string, line: string) {
    Contains(s, "\n" + line + "\n")
  }

  lemma ContainsSuffix(a: string, s: string, t: string)
    requires Contains(s, t)
    ensures Contains(a + s, t)
  {
    var i :| 0 <= i <= |s| && t <= s[i..];
    assert (a + s)[|a| + i..] == s[i..];
  }

  /** Every line strictly between the first and the last stands in the
      joined text between two newlines. */
  lemma {:induction false} InnerLineContained(lines: seq<string>, k: nat)
    requires 0 < k < |lines| - 1
    ensures OnOwnLine(JoinLines(lines), lines[k])
    decreases k
  {
    var rest := lines[1..];
    if k == 1 {
      var tail := JoinLines(rest[1..]);
      assert JoinLines(rest) == lines[1] + "\n" + tail;
      var t := "\n" + lines[1] + "\n";
      assert JoinLines(lines) == lines[0] + t + tail;
      assert t <= JoinLines(lines)[|lines[0]|..];
    } else {
      InnerLineContained(rest, k - 1);
      ContainsSuffix(lines[0] + "\n", JoinLines(rest), "\n" + lines[k] + "\n");
    }
  }

  /** Each field stands on its own labelled line of the message; an empty
      or missing email reads `Not provided` and empty or missing notes read
      `None`. */
  lemma MessageShowsFields(data: map<string, string>, formatDate: Option<string> -> string, now: string)
    ensures var m := Message(data, formatDate, now);
      && OnOwnLine(m, "Name: " + Show(Field(data, "name")))
      && OnOwnLine(m, "Phone: " + Show(Field(data, "phone")))
      && OnOwnLine(m, "Email: " + OrElse(Field(data, "email"), NoEmail))
      && OnOwnLine(m, "Date: " + formatDate(Field(data, "date")))
      && OnOwnLine(m, "Time: " + Show(Field(data, "time")))
      && OnOwnLine(m, "Department: " + Show(Field(data, "department")))
      && OnOwnLine(m, OrElse(Field(data, "message"), NoNotes))
  {
    var m, lines := Message(data, formatDate, now), MessageLines(data, formatDate, now);
    assert OnOwnLine(m, "Name: " + Show(Field(data, "name"))) by {
      InnerLineContained(lines, 4);
      assert lines[4] == "Name: " + Show(Field(data, "name"));
    }
    assert OnOwnLine(m, "Phone: " + Show(Field(data, "phone"))) by {
      InnerLineContained(lines, 5);
      assert lines[5] == "Phone: " + Show(Field(data, "phone"));
    }
    assert OnOwnLine(m, "Email: " + OrElse(Field(data, "email"), NoEmail)) by {
      InnerLineContained(lines, 6);
      assert lines[6] == "Email: " + OrElse(Field(data, "email"), NoEmail);
    }
    assert OnOwnLine(m, "Date: " + formatDate(Field(data, "date"))) by {
      InnerLineContained(lines, 9);
      assert lines[9] == "Date: " + formatDate(Field(data, "date"));
    }
    assert OnOwnLine(m, "Time: " + Show(Field(data, "time"))) by {
      InnerLineContained(lines, 10);
      assert lines[10] == "Time: " + Show(Field(data, "time"));
    }
    assert OnOwnLine(m, "Department: " + Show(Field(data, "department"))) by {
      InnerLineContained(lines, 11);
      assert lines[11] == "Department: " + Show(Field(data, "department"));
    }
    assert OnOwnLine(m, OrElse(Field(data, "message"), NoNotes)) by {
      InnerLineContained(lines, 14);
      assert lines[14] == OrElse(Field(data, "message"), NoNotes);
    }
  }

  /** An empty or missing email is written `Not provided`, and empty or
      missing notes are written `None`. */
  lemma DefaultsForEmptyFields(data: map<string, string>, formatDate: Option<string> -> string, now: string)
    requires "email" !in data || data["email"] == ""
    requires "message" !in data || data["message"] == ""
    ensures OnOwnLine(Message(data, formatDate, now), "Email: Not provided")
    ensures OnOwnLine(Message(data, formatDate, now), "None")
  {
    var lines := MessageLines(data, formatDate, now);
    assert OrElse(Field(data, "email"), NoEmail) == NoEmail;
    assert OrElse(Field(data, "message"), NoNotes) == NoNotes;
    assert lines[6] == "Email: Not provided";
    InnerLineContained(lines, 6);
    InnerLineContained(lines, 14);
  }

  /** The link is the fixed prefix followed by the encoded message, so a
      decoder that undoes the encoding reads the message back. */
  lemma UrlRoundTrip(message: string, encode: string -> string, decode: string -> string)
    requires decode(encode(message)) == message
    ensures UrlPrefix <= WhatsAppUrl(message, encode)
    ensures MessageFromUrl(WhatsAppUrl(message, encode), decode) == Some(message)
  {
    var url := WhatsAppUrl(message, encode);
    assert url[..|UrlPrefix|] == UrlPrefix;
    assert url[|UrlPrefix|..] == encode(message);
  }

  /** The link determines the encoded message: two messages give the same
      link only if their encodings agree, so an injective encoding gives
      distinct links for distinct messages. */
  lemma UrlDeterminesEncoding(m1: string, m2: string, encode: string -> string)
    requires WhatsAppUrl(m1, encode) == WhatsAppUrl(m2, encode)
    ensures encode(m1) == encode(m2)
  {
    assert WhatsAppUrl(m1, encode)[|UrlPrefix|..] == encode(m1);
    assert WhatsAppUrl(m2, encode)[|UrlPrefix|..] == encode(m2);
  }

  /** The synchronous part of the submit handler: gather the fields, compose
      the message and the link, and show the success notification. The
      button relabelling, the form reset and the timers are not modelled. */
  method OnSubmit(body: SingleChild.Container, entries: seq<(string, string)>,
                  formatDate: Option<string> -> string, now: string, encode: string -> string)
    returns (data: map<string, string>, message: string, url: string)
    modifies body
    ensures data == Collected(entries)
    ensures message == Message(data, formatDate, now)
    ensures url == WhatsAppUrl(message, encode)
    ensures body.children == SingleChild.Replace(old(body.children), SingleChild.NotificationClass,
                                                 SingleChild.Notification(SingleChild.Success, "fa-check-circle", SuccessText))
    ensures body.children[|body.children| - 1].icon == "fa-check-circle"
  {
    data := CollectFields(entries);
    message := Message(data, formatDate, now);
    url := WhatsAppUrl(message, encode);
    SingleChild.ShowNotification(body, SingleChild.Success, SuccessText);
  }
}
