/**
 * The message the relay hands to the mail transport: the `mailOptions`
 * object built by the /send-email handler, and the plain-text template that
 * lists the submitted form fields under Spanish labels.
 */
module MailText {

  /** The ten fields the handler destructures from the request body. */
  datatype Submission = Submission(
    firstName: string,
    lastName: string,
    objectives: string,
    email: string,
    phoneNumber: string,
    response: string,
    plan: string,
    disponibility: string,
    found: string,
    message: string)

  /** The `mailOptions` object passed to `sendMail`. */
  datatype MailOptions = MailOptions(from: string, to: string, subject: string, text: string)

  const Subject: string := "FORRO TIENES UN CLIENTE"

  /**
   * What lies between two labelled lines of the template: the escaped `\n`,
   * the literal line break of the template literal and its 11 spaces of
   * indentation.
   */
  const Separator: string := "\n\n           "

  /** The labels of the nine lines, in template order. */
  const Labels: seq<string> := [
    "Nombre: ", "Objetivo: ", "Correo: ", "Tel\U{E9}fono: ", "Respuesta: ",
    "Plan: ", "Disponibilidad: ", "Encontrado por: ", "Mensaje: "]

  /** The value interpolated after each label; the first line holds both names. */
  function Values(s: Submission): seq<string>
  {
    [s.firstName + " " + s.lastName, s.objectives, s.email, s.phoneNumber,
     s.response, s.plan, s.disponibility, s.found, s.message]
  }

  /** The nine labelled lines of the message. */
  function Lines(s: Submission): seq<string>
  {
    seq(9, k requires 0 <= k < 9 => Labels[k] + Values(s)[k])
  }

  /** The parts, in order, with `sep` between each two neighbours. */
  function Join(parts: seq<string>, sep: string): string
  {
    if |parts| == 0 then ""
    else if |parts| == 1 then parts[0]
    else parts[0] + sep + Join(parts[1..], sep)
  }

  /** Where part `k` begins in `Join(parts, sep)`. */
  function Start(parts: seq<string>, sep: string, k: nat): nat
    requires k < |parts|
  {
    if k == 0 then 0 else |parts[0]| + |sep| + Start(parts[1..], sep, k - 1)
  }

  /** `piece` occurs verbatim in `text` at offset `at`. */
  predicate AppearsAt(text: string, piece: string, at: int)
  {
    0 <= at && at + |piece| <= |text| && text[at..at + |piece|] == piece
  }

  /** The template literal of server.js, rendered. */
  function RenderText(s: Submission): string
  {
    Join(Lines(s), Separator)
  }

  /** Offset of line `k` in the rendered message. */
  function LineStart(s: Submission, k: nat): nat
    requires k < 9
  {
    Start(Lines(s), Separator, k)
  }

  /**
   * The `mailOptions` object: sent from and to the same configured account,
   * with every labelled line at its place in the text.
   */
  function MailOptionsFor(s: Submission, account: string): (m: MailOptions)
    ensures m.from == m.to == account
    ensures m.subject == Subject
    ensures forall k :: 0 <= k < 9 ==> AppearsAt(m.text, Labels[k] + Values(s)[k], LineStart(s, k))
    ensures AppearsAt(m.text, "Nombre: " + s.firstName + " " + s.lastName, 0)
  {
    RenderedFieldsInOrder(s);
    MailOptions(account, account, Subject, RenderText(s))
  }

  lemma AppendSlice(a: string, b: string, i: nat, m: nat)
    requires i + m <= |b|
    ensures (a + b)[|a| + i..|a| + i + m] == b[i..i + m]
  {
  }

  /** Every part occurs verbatim at its start offset in the joined string. */
  lemma {:induction false} JoinAt(parts: seq<string>, sep: string, k: nat)
    requires k < |parts|
    ensures AppearsAt(Join(parts, sep), parts[k], Start(parts, sep, k))
  {
    if |parts| == 1 {
    } else if k == 0 {
      var j := Join(parts, sep);
      assert j == parts[0] + (sep + Join(parts[1..], sep));
      assert j[..|parts[0]|] == parts[0];
    } else {
      JoinAt(parts[1..], sep, k - 1);
      var p := parts[0] + sep;
      var rest := Join(parts[1..], sep);
      assert Join(parts, sep) == p + rest;
      AppendSlice(p, rest, Start(parts[1..], sep, k - 1), |parts[k]|);
    }
  }

  /** Consecutive parts are exactly one separator apart. */
  lemma {:induction false} StartNext(parts: seq<string>, sep: string, k: nat)
    requires k + 1 < |parts|
    ensures Start(parts, sep, k + 1) == Start(parts, sep, k) + |parts[k]| + |sep|
  {
    if k > 0 {
      StartNext(parts[1..], sep, k - 1);
    }
  }

  /** Earlier parts end, followed by a separator, before later parts begin. */
  lemma {:induction false} StartsOrdered(parts: seq<string>, sep: string, j: nat, k: nat)
    requires j < k < |parts|
    ensures Start(parts, sep, j) + |parts[j]| + |sep| <= Start(parts, sep, k)
    decreases k - j
  {
    StartNext(parts, sep, j);
    if j + 1 < k {
      StartsOrdered(parts, sep, j + 1, k);
    }
  }

  /** A piece that occurs at `at` has each of its two halves at its own offset. */
  lemma AppearsSplit(text: string, a: string, b: string, at: int)
    requires AppearsAt(text, a + b, at)
    ensures AppearsAt(text, a, at) && AppearsAt(text, b, at + |a|)
  {
    assert text[at..at + |a|] == (a + b)[..|a|];
    assert text[at + |a|..at + |a| + |b|] == (a + b)[|a|..];
  }

  /**
   * The rendered message holds each label followed verbatim by its value,
   * the lines in template order without overlap, and the message opens with
   * the first name, a space and the last name.
   */
  lemma RenderedFieldsInOrder(s: Submission)
    ensures forall k :: 0 <= k < 9 ==> AppearsAt(RenderText(s), Labels[k] + Values(s)[k], LineStart(s, k))
    ensures forall k :: 0 <= k < 9 ==> AppearsAt(RenderText(s), Values(s)[k], LineStart(s, k) + |Labels[k]|)
    ensures forall j, k :: 0 <= j < k < 9 ==> LineStart(s, j) + |Labels[j] + Values(s)[j]| < LineStart(s, k)
    ensures AppearsAt(RenderText(s), "Nombre: " + s.firstName + " " + s.lastName, 0)
    ensures AppearsAt(RenderText(s), s.firstName, 8)
    ensures AppearsAt(RenderText(s), s.lastName, 9 + |s.firstName|)
  {
    var ls := Lines(s);
    forall k | 0 <= k < 9
      ensures AppearsAt(RenderText(s), Labels[k] + Values(s)[k], LineStart(s, k))
      ensures AppearsAt(RenderText(s), Values(s)[k], LineStart(s, k) + |Labels[k]|)
    {
      JoinAt(ls, Separator, k);
      AppearsSplit(RenderText(s), Labels[k], Values(s)[k], LineStart(s, k));
    }
    forall j, k | 0 <= j < k < 9
      ensures LineStart(s, j) + |Labels[j] + Values(s)[j]| < LineStart(s, k)
    {
      StartsOrdered(ls, Separator, j, k);
    }
    var t := RenderText(s);
    assert Labels[0] + Values(s)[0] == "Nombre: " + s.firstName + " " + s.lastName;
    AppearsSplit(t, "Nombre: ", s.firstName + " " + s.lastName, 0);
    assert "Nombre: " + s.firstName + " " + s.lastName == ("Nombre: " + s.firstName) + (" " + s.lastName);
    AppearsSplit(t, "Nombre: " + s.firstName, " " + s.lastName, 0);
    AppearsSplit(t, " ", s.lastName, 8 + |s.firstName|);
  }
}
