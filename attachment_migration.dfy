/** `migrate_attachments` of migrators.py. Each Trello attachment gets a
    display name (its name, else its URL-decoded file name), truncated to
    200 characters plus "...", transliterated, and (when the attachment has
    a date the formatter accepts) the creation date inserted before the
    extension. The file is downloaded to `/tmp/<name>` unless that path is
    longer than 255 characters, uploaded to the Planka card, and removed
    after a successful upload. Finally the card cover is set to the Planka
    attachment that replaced the Trello cover, or cleared.
    The network is a pair of oracles answering the `k`-th attachment's
    download and upload; the codecs (`unquote`, `unidecode` and the
    timezone formatter) are parameters too. */
module AttachmentMigration {
  import opened Wrappers
  import opened Text
  import opened Filenames
  import PlankaApi

  /** A Trello attachment: id, optional name, optional file name and
      optional upload date (`None` for an absent field; a null file name
      is not modelled). */
  datatype Attachment = Attachment(id: string, name: Option<string>, fileName: Option<string>, date: Option<string>)

  /** The string codecs the migrator calls: `urllib.parse.unquote`,
      `unidecode.unidecode`, and `convert_to_trello_timezone`, which gives
      `None` when it raises ValueError. */
  datatype Codecs = Codecs(unquote: string -> string, unidecode: string -> string, formatDate: string -> Option<string>)

  /** The network: whether the `k`-th download (attachment id, raw file
      name) succeeded, and the id Planka gave the `k`-th upload (temp path),
      `None` when the upload raised. */
  datatype Network = Network(download: (nat, string, string) -> bool, upload: (nat, string) -> Option<string>)

  /** What the migrator did to the outside world, in order. */
  datatype Effect =
    | Download(attachmentId: string, path: string, ok: bool)
    | Upload(path: string, date: Option<string>, uploaded: Option<string>)
    | RemoveTemp(path: string)
    | UpdateCover(payload: PlankaApi.Payload)

  const MaxFileNameLength: nat := 200
  const MaxPathLength: nat := 255
  /** `ADD_DATE_TO_FILENAME`. */
  const AddDateToFilename: bool := true

  /** The name a Trello attachment is known by: its name if truthy, else
      its URL-decoded file name (default "attachment"). */
  function DisplayName(a: Attachment, unquote: string -> string): (r: string)
    ensures PlankaApi.Truthy(a.name) ==> r == a.name.value
    ensures !PlankaApi.Truthy(a.name) && a.fileName.Some? ==> r == unquote(a.fileName.value)
    ensures !PlankaApi.Truthy(a.name) && a.fileName.None? ==> r == unquote("attachment")
  {
    if PlankaApi.Truthy(a.name) then a.name.value else unquote(a.fileName.GetOr("attachment"))
  }

  /** Names longer than 200 characters keep their first 200 and get "...". */
  function Truncate(s: string): (r: string)
    ensures |s| <= MaxFileNameLength ==> r == s
    ensures |s| > MaxFileNameLength ==> |r| == MaxFileNameLength + 3 && r[..MaxFileNameLength] == s[..MaxFileNameLength]
    ensures |s| > MaxFileNameLength ==> r[MaxFileNameLength..] == "..."
  {
    if |s| > MaxFileNameLength then s[..MaxFileNameLength] + "..." else s
  }

  /** A truncated name is at most 203 characters long. */
  lemma TruncateBound(s: string)
    ensures |Truncate(s)| <= MaxFileNameLength + 3
  {
  }

  /** Truncating twice changes nothing more: the 203-character result is
      cut back to the same 200 characters and "...". */
  lemma TruncateIdempotent(s: string)
    ensures Truncate(Truncate(s)) == Truncate(s)
  {
    if |s| > MaxFileNameLength {
      var t := Truncate(s);
      assert t[..MaxFileNameLength] == s[..MaxFileNameLength];
      assert t == s[..MaxFileNameLength] + "...";
      assert Truncate(t) == t[..MaxFileNameLength] + "...";
    }
  }

  /** The date tag `_(created_at_<date>)` inserted before the extension. */
  function DatedName(name: string, date: string): (r: string)
    ensures |r| == |name| + |date| + 14
    ensures r[..|SplitExt(name).0|] == SplitExt(name).0
    ensures r[|r| - |SplitExt(name).1|..] == SplitExt(name).1
  {
    var (base, ext) := SplitExt(name);
    base + "_(created_at_" + date + ")" + ext
  }

  /** `rfind` of a character the inserted text does not contain. */
  lemma LastIndexOfInsert(base: string, t: string, ext: string, c: char)
    requires c !in t
    ensures LastIndexOf(base + t + ext, c) ==
            if LastIndexOf(ext, c) >= 0 then |base| + |t| + LastIndexOf(ext, c) else LastIndexOf(base, c)
  {
    assert LastIndexOf(t, c) == -1;
    LastIndexOfAppend(base, t, c);
    LastIndexOfAppend(base + t, ext, c);
  }

  /** Text without dots or slashes appended to a name without extension
      leaves it without extension. */
  lemma SplitExtInsertNoExt(name: string, t: string)
    requires '.' !in t && '/' !in t
    requires SplitExt(name).1 == []
    ensures SplitExt(name + t) == (name + t, [])
  {
    var q := name + t;
    LastIndexOfInsert(name, t, [], '/');
    LastIndexOfInsert(name, t, [], '.');
    assert name + t + [] == q;
  }

  /** Text without dots or slashes inserted before an extension keeps it. */
  lemma SplitExtInsertExt(name: string, t: string)
    requires '.' !in t && '/' !in t
    requires SplitExt(name).1 != []
    ensures var (base, ext) := SplitExt(name);
      SplitExt(base + t + ext) == (base + t, ext)
  {
    var (base, ext) := SplitExt(name);
    var q := base + t + ext;
    LastIndexOfInsert(base, t, ext, '/');
    LastIndexOfInsert(base, t, ext, '.');
    assert LastIndexOf(ext, '/') == -1;
    assert LastIndexOf(ext, '.') == 0;
    LastIndexOfAppend(base, ext, '/');
    var sep := LastIndexOf(base, '/');
    assert LastIndexOf(name, '/') == sep;
    var k :| sep + 1 <= k < |base| && name[k] != '.';
    assert q[k] == name[k];
    assert HasNonDot(q, sep + 1, |base| + |t|);
    assert q[..|base| + |t|] == base + t;
    assert q[|base| + |t|..] == ext;
  }

  /** Text without dots or slashes inserted between the base and the
      extension keeps the extension: `os.path.splitext` still splits there. */
  lemma SplitExtInsert(name: string, t: string)
    requires '.' !in t && '/' !in t
    ensures var (base, ext) := SplitExt(name);
      SplitExt(base + t + ext) == (base + t, ext)
  {
    var (base, ext) := SplitExt(name);
    if ext == [] {
      SplitExtInsertNoExt(name, t);
      assert base + t + ext == name + t;
    } else {
      SplitExtInsertExt(name, t);
    }
  }

  /** The dated name keeps the original extension whenever the formatted
      date has no dot or slash (the "%d-%m-%Y %H-%M" format has neither). */
  lemma DatedNameKeepsExtension(name: string, date: string)
    requires '.' !in date && '/' !in date
    ensures SplitExt(DatedName(name, date)).1 == SplitExt(name).1
    ensures SplitExt(DatedName(name, date)).0 == SplitExt(name).0 + "_(created_at_" + date + ")"
  {
    var tag := "_(created_at_" + date + ")";
    DateTagHasNoDotOrSlash(date);
    SplitExtInsert(name, tag);
    DatedNameSplices(name, date);
  }

  /** The dated name is the base, the date tag and the extension. */
  lemma DatedNameSplices(name: string, date: string)
    ensures DatedName(name, date) == SplitExt(name).0 + ("_(created_at_" + date + ")") + SplitExt(name).1
  {
    var p := SplitExt(name);
    var tag := "_(created_at_" + date + ")";
    assert p.0 + "_(created_at_" + date + ")" == p.0 + tag;
  }

  /** The date tag adds no dot or slash of its own. */
  lemma DateTagHasNoDotOrSlash(date: string)
    requires '.' !in date && '/' !in date
    ensures var tag := "_(created_at_" + date + ")";
      '.' !in tag && '/' !in tag
  {
    var tag := "_(created_at_" + date + ")";
    forall i | 0 <= i < |tag| ensures tag[i] != '.' && tag[i] != '/' {
      if 13 <= i < 13 + |date| { assert tag[i] == date[i - 13]; }
    }
  }

  /** The name the file is stored under: the transliterated display name,
      dated when the attachment has a truthy date the formatter accepts. */
  function StoredName(raw: string, date: Option<string>, codecs: Codecs): string {
    var translit := TransliterateFilename(raw, codecs.unidecode);
    if AddDateToFilename && PlankaApi.Truthy(date) then
      match codecs.formatDate(date.value)
      case Some(formatted) => DatedName(translit, formatted)
      case None => translit
    else translit
  }

  /** The dating rule: without a truthy date, or when the formatter
      raises, the stored name is the transliterated name; otherwise the
      formatted date is inserted before the transliterated name's extension
      (which stays its extension when the date has no dot or slash). */
  lemma StoredNameCases(raw: string, date: Option<string>, codecs: Codecs)
    ensures var translit := TransliterateFilename(raw, codecs.unidecode);
      !PlankaApi.Truthy(date) || codecs.formatDate(date.value).None? ==> StoredName(raw, date, codecs) == translit
    ensures var translit := TransliterateFilename(raw, codecs.unidecode);
      PlankaApi.Truthy(date) && codecs.formatDate(date.value).Some? ==>
        var formatted := codecs.formatDate(date.value).value;
        var stored := StoredName(raw, date, codecs);
        && |stored| == |translit| + |formatted| + 14
        && ('.' !in formatted && '/' !in formatted ==>
              && SplitExt(stored).1 == SplitExt(translit).1
              && SplitExt(stored).0 == SplitExt(translit).0 + "_(created_at_" + formatted + ")")
  {
    var translit := TransliterateFilename(raw, codecs.unidecode);
    if PlankaApi.Truthy(date) && codecs.formatDate(date.value).Some? {
      var formatted := codecs.formatDate(date.value).value;
      if '.' !in formatted && '/' !in formatted {
        DatedNameKeepsExtension(translit, formatted);
      }
    }
  }

  /** The temporary file the attachment is downloaded to. */
  function TempPath(name: string): (path: string)
    ensures |path| == |name| + 5
  {
    "/tmp/" + name
  }

  /** The temp path is over the 255-character limit exactly when the name
      is longer than 250 characters, the limit minus the "/tmp/" prefix. */
  lemma TempPathTooLong(name: string)
    ensures |TempPath(name)| > MaxPathLength <==> |name| > MaxPathLength - 5
  {
  }

  /** An attachment as the loop uses it: its id, its raw (display,
      truncated) name, its temp path and its date. */
  datatype Prepared = Prepared(id: string, raw: string, path: string, date: Option<string>)

  /** The names `migrate_attachments` computes before the download: the
      truncated display name, and the temp path of the stored name. */
  function Prepare(a: Attachment, codecs: Codecs): (p: Prepared)
    ensures p.id == a.id && p.date == a.date
    ensures p.raw == Truncate(DisplayName(a, codecs.unquote))
    ensures p.path == TempPath(StoredName(p.raw, a.date, codecs))
  {
    var raw := Truncate(DisplayName(a, codecs.unquote));
    Prepared(a.id, raw, TempPath(StoredName(raw, a.date, codecs)), a.date)
  }

  function PrepareAll(attachments: seq<Attachment>, codecs: Codecs): (r: seq<Prepared>)
    ensures |r| == |attachments|
    ensures forall i :: 0 <= i < |attachments| ==> r[i] == Prepare(attachments[i], codecs) && r[i].id == attachments[i].id
  {
    seq(|attachments|, i requires 0 <= i < |attachments| => Prepare(attachments[i], codecs))
  }

  /** The id-to-id mapping and the effects so far. */
  datatype AttachmentRunState = AttachmentRunState(mapping: map<string, string>, effects: seq<Effect>)

  /** The Planka id the `k`-th attachment ends up with: none when its path
      is too long, its download failed or its upload raised. */
  function UploadedId(p: Prepared, k: nat, net: Network): Option<string> {
    if |p.path| > MaxPathLength || !net.download(k, p.id, p.raw) then None
    else net.upload(k, p.path)
  }

  /** One attachment, the `k`-th. */
  function AttachmentStep(mapping: map<string, string>, p: Prepared, k: nat, net: Network): AttachmentRunState
  {
    if |p.path| > MaxPathLength then AttachmentRunState(mapping, [])
    else if !net.download(k, p.id, p.raw) then AttachmentRunState(mapping, [Download(p.id, p.path, false)])
    else
      match net.upload(k, p.path)
      case None => AttachmentRunState(mapping, [Download(p.id, p.path, true), Upload(p.path, p.date, None)])
      case Some(id) =>
        AttachmentRunState(mapping[p.id := id],
          [Download(p.id, p.path, true), Upload(p.path, p.date, Some(id)), RemoveTemp(p.path)])
  }

  /** The attachments of `order`, first to last. */
  function AttachmentRun(order: seq<Prepared>, net: Network): AttachmentRunState
  {
    if order == [] then AttachmentRunState(map[], [])
    else
      var before := AttachmentRun(order[..|order| - 1], net);
      var step := AttachmentStep(before.mapping, order[|order| - 1], |order| - 1, net);
      AttachmentRunState(step.mapping, before.effects + step.effects)
  }

  /** The cover to set: the Planka id of the Trello cover attachment, if it
      was migrated. */
  function CoverChoice(mapping: map<string, string>, coverId: Option<string>): (r: Option<string>)
    ensures r.Some? <==> coverId.Some? && coverId.value in mapping
  {
    if coverId.Some? && coverId.value in mapping then Some(mapping[coverId.value]) else None
  }

  /** All effects of `migrate_attachments`: nothing for a card without
      attachments, otherwise the run followed by one cover update. */
  function AttachmentEffects(order: seq<Prepared>, coverId: Option<string>, net: Network): seq<Effect>
  {
    if order == [] then []
    else
      var run := AttachmentRun(order, net);
      run.effects + [UpdateCover(PlankaApi.CoverPayload(CoverChoice(run.mapping, coverId)))]
  }

  /** The effects of one step, in terms of the attachment's outcome: a
      step whose path is too long does nothing; otherwise it downloads,
      uploads only after a successful download, and removes the temp file
      only after a successful upload. */
  lemma StepCases(mapping: map<string, string>, p: Prepared, k: nat, net: Network)
    ensures var step := AttachmentStep(mapping, p, k, net);
      var id := UploadedId(p, k, net);
      && (id.None? ==> step.mapping == mapping)
      && (id.Some? ==> step.mapping == mapping[p.id := id.value])
      && (|p.path| > MaxPathLength ==> step.effects == [])
      && (|p.path| <= MaxPathLength ==> |step.effects| >= 1 && step.effects[0] == Download(p.id, p.path, net.download(k, p.id, p.raw)))
      && (forall i :: 0 <= i < |step.effects| ==> !step.effects[i].UpdateCover? && step.effects[i].path == p.path)
      && (forall i :: 0 <= i < |step.effects| && step.effects[i].Upload? ==>
            i == 1 && step.effects[0] == Download(p.id, p.path, true) && step.effects[i].uploaded == id)
      && (forall i :: 0 <= i < |step.effects| && step.effects[i].RemoveTemp? ==>
            i == 2 && step.effects[1] == Upload(p.path, p.date, id) && id.Some?)
      && (id.Some? ==> |step.effects| == 3)
  {
  }

  /** An attachment is skipped (no effect, mapping unchanged) exactly when
      its stored name, transliterated and dated, is longer than 250
      characters. */
  lemma SkippedIffStoredNameTooLong(mapping: map<string, string>, a: Attachment, codecs: Codecs, k: nat, net: Network)
    ensures var step := AttachmentStep(mapping, Prepare(a, codecs), k, net);
      step.effects == [] && step.mapping == mapping
      <==> |StoredName(Truncate(DisplayName(a, codecs.unquote)), a.date, codecs)| > MaxPathLength - 5
  {
    var p := Prepare(a, codecs);
    TempPathTooLong(StoredName(p.raw, a.date, codecs));
    StepCases(mapping, p, k, net);
  }

  /** The effects of a run are those of the shorter run followed by those
      of its last step. */
  lemma RunEffectsSplit(order: seq<Prepared>, net: Network, i: int)
    requires order != []
    requires 0 <= i < |AttachmentRun(order, net).effects|
    ensures var before := AttachmentRun(order[..|order| - 1], net);
      var step := AttachmentStep(before.mapping, order[|order| - 1], |order| - 1, net);
      var run := AttachmentRun(order, net);
      run.effects[i] == if i < |before.effects| then before.effects[i] else step.effects[i - |before.effects|]
  {
  }

  /** The mapping holds exactly the attachments that were uploaded. */
  lemma {:induction false} MappingKeysAreUploads(order: seq<Prepared>, net: Network)
    ensures forall key :: (key in AttachmentRun(order, net).mapping <==>
                           exists i :: 0 <= i < |order| && order[i].id == key && UploadedId(order[i], i, net).Some?)
    decreases |order|
  {
    if order != [] {
      var n := |order| - 1;
      var prefix := order[..n];
      var before := AttachmentRun(prefix, net);
      var run := AttachmentRun(order, net);
      MappingKeysAreUploads(prefix, net);
      StepCases(before.mapping, order[n], n, net);
      forall key
        ensures key in run.mapping <==>
                exists i :: 0 <= i < |order| && order[i].id == key && UploadedId(order[i], i, net).Some?
      {
        if key in run.mapping && !(UploadedId(order[n], n, net).Some? && order[n].id == key) {
          assert key in before.mapping;
          var i :| 0 <= i < |prefix| && prefix[i].id == key && UploadedId(prefix[i], i, net).Some?;
          assert order[i] == prefix[i];
        }
        if exists i :: 0 <= i < |order| && order[i].id == key && UploadedId(order[i], i, net).Some? {
          var i :| 0 <= i < |order| && order[i].id == key && UploadedId(order[i], i, net).Some?;
          if i < n {
            assert prefix[i] == order[i];
          }
        }
      }
    }
  }

  /** The `i`-th attachment was uploaded and no later one with the same
      Trello id was. */
  predicate IsLastUpload(order: seq<Prepared>, i: int, net: Network)
    requires 0 <= i < |order|
  {
    && UploadedId(order[i], i, net).Some?
    && forall j :: i < j < |order| && order[j].id == order[i].id ==> UploadedId(order[j], j, net).None?
  }

  /** Each uploaded attachment maps to the id of its last upload: a later
      upload under the same Trello id overwrites it. */
  lemma {:induction false} MappingIsLastUpload(order: seq<Prepared>, net: Network)
    ensures forall i :: 0 <= i < |order| && IsLastUpload(order, i, net) ==>
      && order[i].id in AttachmentRun(order, net).mapping
      && AttachmentRun(order, net).mapping[order[i].id] == UploadedId(order[i], i, net).value
    decreases |order|
  {
    if order != [] {
      var n := |order| - 1;
      var prefix := order[..n];
      var before := AttachmentRun(prefix, net);
      var run := AttachmentRun(order, net);
      MappingIsLastUpload(prefix, net);
      StepCases(before.mapping, order[n], n, net);
      forall i | 0 <= i < |order| && IsLastUpload(order, i, net)
        ensures order[i].id in run.mapping && run.mapping[order[i].id] == UploadedId(order[i], i, net).value
      {
        if i < n {
          assert prefix[i] == order[i];
          forall j | i < j < |prefix| && prefix[j].id == prefix[i].id
            ensures UploadedId(prefix[j], j, net).None?
          {
            assert prefix[j] == order[j];
          }
          assert IsLastUpload(prefix, i, net);
        }
      }
    }
  }

  /** Order and safety of the effects of a run: every path is within the
      limit, an upload directly follows the successful download of the same
      path, a temp file is removed directly after its successful upload, a
      failed upload leaves its temp file in place, and no cover update
      happens inside the run. */
  predicate OrderedAt(effects: seq<Effect>, i: int)
    requires 0 <= i < |effects|
  {
    && !effects[i].UpdateCover?
    && |effects[i].path| <= MaxPathLength
    && (effects[i].Upload? ==>
          i >= 1 && effects[i - 1].Download? && effects[i - 1].ok && effects[i - 1].path == effects[i].path)
    && (effects[i].RemoveTemp? ==>
          i >= 1 && effects[i - 1].Upload? && effects[i - 1].uploaded.Some? && effects[i - 1].path == effects[i].path)
    && (effects[i].Upload? && effects[i].uploaded.None? ==> i + 1 == |effects| || !effects[i + 1].RemoveTemp?)
  }

  lemma {:induction false} RunEffectsOrdered(order: seq<Prepared>, net: Network)
    ensures forall i :: 0 <= i < |AttachmentRun(order, net).effects| ==> OrderedAt(AttachmentRun(order, net).effects, i)
    decreases |order|
  {
    if order != [] {
      var n := |order| - 1;
      var before := AttachmentRun(order[..n], net);
      var step := AttachmentStep(before.mapping, order[n], n, net);
      var effects := AttachmentRun(order, net).effects;
      RunEffectsOrdered(order[..n], net);
      StepCases(before.mapping, order[n], n, net);
      forall i | 0 <= i < |effects|
        ensures OrderedAt(effects, i)
      {
        RunEffectsSplit(order, net, i);
        if i >= 1 { RunEffectsSplit(order, net, i - 1); }
        if i + 1 < |effects| { RunEffectsSplit(order, net, i + 1); }
        if i < |before.effects| {
          assert OrderedAt(before.effects, i);
        }
      }
    }
  }

  /** A card with attachments gets exactly one cover update, as the last
      effect; a card without attachments gets none. */
  lemma CoverUpdatedOnceAtEnd(order: seq<Prepared>, coverId: Option<string>, net: Network)
    ensures var effects := AttachmentEffects(order, coverId, net);
      && (order == [] <==> effects == [])
      && (order != [] ==>
            && effects[|effects| - 1].UpdateCover?
            && forall i :: 0 <= i < |effects| - 1 ==> !effects[i].UpdateCover?)
  {
    RunEffectsOrdered(order, net);
    if order != [] {
      var run := AttachmentRun(order, net);
      var effects := AttachmentEffects(order, coverId, net);
      forall i | 0 <= i < |effects| - 1 ensures !effects[i].UpdateCover? {
        assert effects[i] == run.effects[i];
        assert OrderedAt(run.effects, i);
      }
    }
  }

  /** The cover payload: the Planka id of the migrated cover when there is
      one, and an explicit null otherwise (no cover set in Trello, or the
      cover attachment was not migrated). */
  lemma CoverPayloadChoice(order: seq<Prepared>, coverId: Option<string>, net: Network)
    requires order != []
    ensures var run := AttachmentRun(order, net);
      var effects := AttachmentEffects(order, coverId, net);
      var value := effects[|effects| - 1].payload["coverAttachmentId"];
      && (coverId.None? || coverId.value !in run.mapping ==> value == PlankaApi.JNull)
      && (coverId.Some? && coverId.value in run.mapping && run.mapping[coverId.value] != "" ==>
            value == PlankaApi.JString(run.mapping[coverId.value]))
  {
  }

  /** When no attachment carries the cover's id, the cover is cleared,
      whatever the network does. */
  lemma CoverOfUnknownAttachmentCleared(order: seq<Prepared>, cover: string, net: Network)
    requires order != []
    requires forall i :: 0 <= i < |order| ==> order[i].id != cover
    ensures var effects := AttachmentEffects(order, Some(cover), net);
      effects[|effects| - 1] == UpdateCover(map["coverAttachmentId" := PlankaApi.JNull])
  {
    MappingKeysAreUploads(order, net);
    var run := AttachmentRun(order, net);
    assert cover !in run.mapping;
    var effects := AttachmentEffects(order, Some(cover), net);
    assert effects[|effects| - 1].payload == PlankaApi.CoverPayload(None);
  }

  /** A cover id that names none of the card's attachments (the scenario
      of two attachments and a cover naming a third) clears the cover. */
  lemma CoverOfMissingAttachmentCleared(attachments: seq<Attachment>, cover: string, codecs: Codecs, net: Network)
    requires attachments != []
    requires forall i :: 0 <= i < |attachments| ==> attachments[i].id != cover
    ensures var effects := AttachmentEffects(PrepareAll(attachments, codecs), Some(cover), net);
      effects[|effects| - 1] == UpdateCover(map["coverAttachmentId" := PlankaApi.JNull])
  {
    CoverOfUnknownAttachmentCleared(PrepareAll(attachments, codecs), cover, net);
  }

  /** The loop body for the `k`-th attachment after its names are
      computed: `continue` on a path too long, a failed download or a
      failed upload. */
  method MigrateAttachment(mapping: map<string, string>, p: Prepared, k: nat, net: Network)
    returns (mapping': map<string, string>, effects: seq<Effect>)
    ensures AttachmentRunState(mapping', effects) == AttachmentStep(mapping, p, k, net)
  {
    mapping' := mapping;
    effects := [];
    if |p.path| > MaxPathLength {
      return;
    }
    var downloaded := net.download(k, p.id, p.raw);
    effects := [Download(p.id, p.path, downloaded)];
    if !downloaded {
      return;
    }
    var plankaAttachment := net.upload(k, p.path);
    effects := effects + [Upload(p.path, p.date, plankaAttachment)];
    if plankaAttachment.None? {
      return;
    }
    mapping' := mapping'[p.id := plankaAttachment.value];
    effects := effects + [RemoveTemp(p.path)];
  }

  /** The loop of `migrate_attachments` and the cover update after it,
      over attachments whose names are already computed. */
  method TransferAttachments(order: seq<Prepared>, coverId: Option<string>, net: Network) returns (effects: seq<Effect>)
    ensures effects == AttachmentEffects(order, coverId, net)
  {
    effects := [];
    if order == [] {
      return;
    }
    var plankaAttachments: map<string, string> := map[];
    for k := 0 to |order|
      invariant AttachmentRunState(plankaAttachments, effects) == AttachmentRun(order[..k], net)
    {
      assert order[..k + 1][..k] == order[..k];
      var stepEffects;
      plankaAttachments, stepEffects := MigrateAttachment(plankaAttachments, order[k], k, net);
      effects := effects + stepEffects;
    }
    assert order[..|order|] == order;
    var coverPlankaId := CoverChoice(plankaAttachments, coverId);
    effects := effects + [UpdateCover(PlankaApi.CoverPayload(coverPlankaId))];
  }

  /** `migrate_attachments`: the names of every attachment (which have no
      effect of their own), then the transfer. */
  method MigrateAttachments(attachments: seq<Attachment>, coverId: Option<string>, codecs: Codecs, net: Network)
    returns (effects: seq<Effect>)
    ensures effects == AttachmentEffects(PrepareAll(attachments, codecs), coverId, net)
  {
    var order := PrepareAll(attachments, codecs);
    effects := TransferAttachments(order, coverId, net);
  }
}
