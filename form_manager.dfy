/**
 * The contact-form editor of the dashboard: the default fields, the two
 * per-field toggles, the configuration as it is saved and as the delete
 * button writes it, and the CSV export of the submissions.
 */
module FormManager {
  import opened Common
  import opened FormTypes

  function DefaultFields(): seq<ContactFormField>
  {
    [
      ContactFormField("name", "Nome", "text", Some("Seu nome completo"), true, true),
      ContactFormField("email", "E-mail", "email", Some("seu@email.com"), true, true),
      ContactFormField("phone", "Telefone", "tel", Some("(00) 00000-0000"), false, true),
      ContactFormField("message", "Mensagem", "textarea", Some("Digite sua mensagem..."), true, true)
    ]
  }

  /** The configuration the editor starts with. */
  function DefaultConfig(): ContactForm
  {
    ContactForm(true, Some("Entre em Contato"), Some(""), Some("Enviar Mensagem"),
      Some("Obrigado! Sua mensagem foi enviada com sucesso."), Some(DefaultFields()))
  }

  /** The effect on `profile`: the stored configuration, with the default fields when it has none. */
  function LoadConfig(stored: Option<ContactForm>): (r: ContactForm)
    ensures r.fields.Some?
    ensures stored.None? ==> r == DefaultConfig()
    ensures stored.Some? && stored.value.fields.None? ==> r == stored.value.(fields := Some(DefaultFields()))
    ensures stored.Some? && stored.value.fields.Some? ==> r == stored.value
  {
    if stored.None? then DefaultConfig()
    else if stored.value.fields.None? then stored.value.(fields := Some(DefaultFields()))
    else stored.value
  }

  /** A configuration without fields gets the four default ones, all enabled. */
  lemma LoadWithoutFields(stored: ContactForm)
    requires stored.fields.None?
    ensures var fs := LoadConfig(Some(stored)).fields.value;
      |fs| == 4 && fs[0].id == "name" && fs[1].id == "email" && fs[2].id == "phone" && fs[3].id == "message" &&
      (forall i :: 0 <= i < |fs| ==> fs[i].enabled) &&
      (forall i :: 0 <= i < |fs| ==> (fs[i].required <==> fs[i].id != "phone"))
  {
  }

  // ---------------------------------------------------------------------------
  // toggleFieldRequired, toggleFieldEnabled
  // ---------------------------------------------------------------------------

  /** `required` flipped on the fields with that id, everything else kept. */
  function ToggleRequired(fields: seq<ContactFormField>, fieldId: string): (r: seq<ContactFormField>)
    ensures |r| == |fields|
    ensures forall i :: 0 <= i < |fields| ==>
      r[i] == if fields[i].id == fieldId then fields[i].(required := !fields[i].required) else fields[i]
  {
    seq(|fields|, i requires 0 <= i < |fields| =>
      if fields[i].id == fieldId then fields[i].(required := !fields[i].required) else fields[i])
  }

  /** `enabled` flipped on the fields with that id, everything else kept. */
  function ToggleEnabled(fields: seq<ContactFormField>, fieldId: string): (r: seq<ContactFormField>)
    ensures |r| == |fields|
    ensures forall i :: 0 <= i < |fields| ==>
      r[i] == if fields[i].id == fieldId then fields[i].(enabled := !fields[i].enabled) else fields[i]
  {
    seq(|fields|, i requires 0 <= i < |fields| =>
      if fields[i].id == fieldId then fields[i].(enabled := !fields[i].enabled) else fields[i])
  }

  /** `toggleFieldRequired(fieldId)` on the configuration. */
  function ToggleFieldRequired(config: ContactForm, fieldId: string): (r: ContactForm)
    requires config.fields.Some?
    ensures r == config.(fields := Some(ToggleRequired(config.fields.value, fieldId)))
  {
    config.(fields := Some(ToggleRequired(config.fields.value, fieldId)))
  }

  /** `toggleFieldEnabled(fieldId)` on the configuration. */
  function ToggleFieldEnabled(config: ContactForm, fieldId: string): (r: ContactForm)
    requires config.fields.Some?
    ensures r == config.(fields := Some(ToggleEnabled(config.fields.value, fieldId)))
  {
    config.(fields := Some(ToggleEnabled(config.fields.value, fieldId)))
  }

  /** Toggling twice gives the configuration back. */
  lemma ToggleRequiredTwice(config: ContactForm, fieldId: string)
    requires config.fields.Some?
    ensures ToggleFieldRequired(ToggleFieldRequired(config, fieldId), fieldId) == config
  {
    var fs := config.fields.value;
    assert ToggleRequired(ToggleRequired(fs, fieldId), fieldId) == fs;
  }

  lemma ToggleEnabledTwice(config: ContactForm, fieldId: string)
    requires config.fields.Some?
    ensures ToggleFieldEnabled(ToggleFieldEnabled(config, fieldId), fieldId) == config
  {
    var fs := config.fields.value;
    assert ToggleEnabled(ToggleEnabled(fs, fieldId), fieldId) == fs;
  }

  /** The two toggles touch different flags, so their order does not matter. */
  lemma TogglesCommute(fields: seq<ContactFormField>, a: string, b: string)
    ensures ToggleRequired(ToggleEnabled(fields, a), b) == ToggleEnabled(ToggleRequired(fields, b), a)
  {
  }

  // ---------------------------------------------------------------------------
  // handleSaveConfig, handleDeleteForm
  // ---------------------------------------------------------------------------

  /**
   * The coercions of one field: `String(placeholder || "")`; the flags are
   * booleans already, so `Boolean(x)` keeps them.
   */
  function NormalizeField(f: ContactFormField): ContactFormField
  {
    f.(placeholder := Some(OrEmpty(f.placeholder)))
  }

  /**
   * The `contactform` object `handleSaveConfig` writes: texts defaulted to "",
   * an empty or missing terms text written as null, and the field list (an
   * empty one when it is missing) with every placeholder defaulted to "".
   */
  function SaveConfig(config: ContactForm): (r: ContactForm)
    ensures r.enabled == config.enabled
    ensures r.title == Some(OrEmpty(config.title)) && r.buttonText == Some(OrEmpty(config.buttonText))
    ensures r.successMessage == Some(OrEmpty(config.successMessage))
    ensures r.termsOfUse.None? <==> OrEmpty(config.termsOfUse) == ""
    ensures r.termsOfUse.Some? ==> r.termsOfUse == config.termsOfUse
    ensures r.fields.Some?
    ensures config.fields.None? ==> r.fields.value == []
    ensures config.fields.Some? ==> |r.fields.value| == |config.fields.value|
  {
    ContactForm(
      config.enabled,
      Some(OrEmpty(config.title)),
      if OrEmpty(config.termsOfUse) != "" then config.termsOfUse else None,
      Some(OrEmpty(config.buttonText)),
      Some(OrEmpty(config.successMessage)),
      Some(if config.fields.Some? then NormalizeFields(config.fields.value) else []))
  }

  function NormalizeFields(fields: seq<ContactFormField>): (r: seq<ContactFormField>)
    ensures |r| == |fields|
    ensures forall i :: 0 <= i < |fields| ==> r[i] == NormalizeField(fields[i])
  {
    seq(|fields|, i requires 0 <= i < |fields| => NormalizeField(fields[i]))
  }

  /** Every field keeps its id, label, type and flags, and gets a defined placeholder. */
  lemma SaveKeepsFields(config: ContactForm, i: nat)
    requires config.fields.Some? && i < |config.fields.value|
    ensures var f, g := config.fields.value[i], SaveConfig(config).fields.value[i];
      g.id == f.id && g.labelText == f.labelText && g.kind == f.kind &&
      g.required == f.required && g.enabled == f.enabled &&
      g.placeholder == Some(OrEmpty(f.placeholder))
  {
  }

  /** Saving a saved configuration again writes the same thing. */
  lemma SaveIdempotent(config: ContactForm)
    ensures SaveConfig(SaveConfig(config)) == SaveConfig(config)
  {
    var s := SaveConfig(config);
    assert NormalizeFields(s.fields.value) == s.fields.value;
  }

  /** `handleDeleteForm`: the configuration as it is, switched off. */
  function DeleteConfig(config: ContactForm): (r: ContactForm)
    ensures !r.enabled && r.(enabled := config.enabled) == config
  {
    config.(enabled := false)
  }

  // ---------------------------------------------------------------------------
  // exportToCSV
  // ---------------------------------------------------------------------------

  function Headers(): seq<string>
  {
    ["Nome", "E-mail", "Telefone", "Mensagem", "Data de Envio"]
  }

  function EscapeChar(c: char): string
  {
    if c == '\n' then " " else if c == '"' then "\"\"" else [c]
  }

  /** `message.replace(/\n/g, " ").replace(/"/g, '""')`. */
  function EscapeMessage(m: string): string
  {
    if m == [] then [] else EscapeChar(m[0]) + EscapeMessage(m[1..])
  }

  /** Every line feed of a message as a space. */
  function NewlinesToSpaces(m: string): (r: string)
    ensures |r| == |m|
  {
    if m == [] then [] else [if m[0] == '\n' then ' ' else m[0]] + NewlinesToSpaces(m[1..])
  }

  /** Reading a quoted CSV cell's contents: each `""` stands for one `"`. */
  function UnescapeQuotes(e: string): string
  {
    if e == [] then []
    else if |e| >= 2 && e[0] == '"' && e[1] == '"' then "\"" + UnescapeQuotes(e[2..])
    else [e[0]] + UnescapeQuotes(e[1..])
  }

  /** An escaped message has no line feed, so the cell stays on its line. */
  lemma {:induction false} EscapeNoNewline(m: string)
    ensures '\n' !in EscapeMessage(m)
  {
    if m != [] {
      EscapeNoNewline(m[1..]);
    }
  }

  /** A CSV reader gets the message back, with its line feeds turned into spaces. */
  lemma {:induction false} UnescapeEscape(m: string)
    ensures UnescapeQuotes(EscapeMessage(m)) == NewlinesToSpaces(m)
  {
    if m != [] {
      UnescapeEscape(m[1..]);
      var rest := EscapeMessage(m[1..]);
      if m[0] == '"' {
        assert ("\"\"" + rest)[2..] == rest;
      } else {
        assert ([if m[0] == '\n' then ' ' else m[0]] + rest)[1..] == rest;
      }
    }
  }

  /** A message without line feeds or quotes is written as it is. */
  lemma {:induction false} EscapePlain(m: string)
    requires '\n' !in m && '"' !in m
    ensures EscapeMessage(m) == m
  {
    if m != [] {
      EscapePlain(m[1..]);
      assert [m[0]] + m[1..] == m;
    }
  }

  /** The cells of a submission; the date cell is the locale's text for the creation time. */
  function Row(sub: FormSubmission, date: string): (r: seq<string>)
    ensures |r| == 5
    ensures r[0] == sub.name && r[1] == sub.email && r[2] == OrEmpty(sub.phone)
    ensures r[3] == EscapeMessage(sub.message) && r[4] == date
  {
    [sub.name, sub.email, OrEmpty(sub.phone), EscapeMessage(sub.message), date]
  }

  function Quote(cell: string): string
  {
    "\"" + cell + "\""
  }

  function Quoted(cells: seq<string>): (r: seq<string>)
    ensures |r| == |cells| && forall i :: 0 <= i < |cells| ==> r[i] == Quote(cells[i])
  {
    seq(|cells|, i requires 0 <= i < |cells| => Quote(cells[i]))
  }

  /** One line per submission: each cell quoted, joined by commas. */
  function Lines(subs: seq<FormSubmission>, localDate: string -> string): (r: seq<string>)
    ensures |r| == |subs|
    ensures forall i :: 0 <= i < |subs| ==> r[i] == Join(Quoted(Row(subs[i], localDate(subs[i].createdAt))), ",")
  {
    seq(|subs|, i requires 0 <= i < |subs| =>
      Join(Quoted(Row(subs[i], localDate(subs[i].createdAt))), ","))
  }

  /**
   * `exportToCSV`: nothing without submissions; otherwise the byte-order
   * mark, the header line (its names are not quoted) and one line per
   * submission, joined by line feeds.
   */
  function ExportCsv(subs: seq<FormSubmission>, localDate: string -> string): (r: Option<string>)
    ensures r.None? <==> subs == []
    ensures r.Some? ==> |r.value| >= 1 && r.value[0] == '\U{FEFF}'
  {
    if subs == [] then None
    else Some("\U{FEFF}" + Join([Join(Headers(), ",")] + Lines(subs, localDate), "\n"))
  }

  lemma {:induction false} JoinAvoids(parts: seq<string>, sep: string, c: char)
    requires forall i :: 0 <= i < |parts| ==> c !in parts[i]
    requires c !in sep
    ensures c !in Join(parts, sep)
  {
    if |parts| > 1 {
      JoinAvoids(parts[1..], sep, c);
    }
  }

  /** A submission whose cells hold no line feed of their own. */
  predicate SingleLine(sub: FormSubmission, date: string)
  {
    '\n' !in sub.name && '\n' !in sub.email && '\n' !in OrEmpty(sub.phone) && '\n' !in date
  }

  /**
   * Read back line by line, the export is the header and one line per
   * submission (the message never breaks a line; the other cells are not
   * escaped, so they must not hold line feeds themselves).
   */
  lemma CsvLines(subs: seq<FormSubmission>, localDate: string -> string)
    requires subs != []
    requires forall i :: 0 <= i < |subs| ==> SingleLine(subs[i], localDate(subs[i].createdAt))
    ensures var text := ExportCsv(subs, localDate).value;
      Split(text[1..], '\n') == [Join(Headers(), ",")] + Lines(subs, localDate) &&
      |Split(text[1..], '\n')| == |subs| + 1
  {
    var lines := Lines(subs, localDate);
    forall i | 0 <= i < |lines| ensures '\n' !in lines[i] {
      var row := Row(subs[i], localDate(subs[i].createdAt));
      EscapeNoNewline(subs[i].message);
      JoinAvoids(Quoted(row), ",", '\n');
    }
    JoinAvoids(Headers(), ",", '\n');
    var parts := [Join(Headers(), ",")] + lines;
    SplitJoin(parts, '\n');
    var text := ExportCsv(subs, localDate).value;
    assert text[1..] == Join(parts, "\n");
  }
}
