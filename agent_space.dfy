/**
 * The document-upload assistant panel: the demo tenant id it generates, the
 * two-step upload it runs when a file is dropped (storage object first, then
 * the document record through the server), and its chat log.
 */
module AgentSpace {
  import opened Wrappers
  import opened Documents
  import opened Table
  import opened Storage
  import opened Server

  // ---------------------------------------------------------------------------
  // generateTenantId: a version-4 UUID (RFC 4122, sections 4.1 and 4.4)
  // ---------------------------------------------------------------------------

  /** One random draw, `Math.random() * 16 | 0`. */
  type Nibble = x: nat | x < 16

  const TEMPLATE := "xxxxxxxx-xxxx-4xxx-yxxx-xxxxxxxxxxxx"

  predicate IsLowerHex(c: char) {
    '0' <= c <= '9' || 'a' <= c <= 'f'
  }

  /** `v.toString(16)` for a single nibble. */
  function HexDigit(v: Nibble): (c: char)
    ensures IsLowerHex(c)
    ensures c as int == if v < 10 then '0' as int + v else 'a' as int + v - 10
  {
    "0123456789abcdef"[v]
  }

  /** `r & 0x3 | 0x8`: keeps the low two bits of `r` and sets the variant bits to binary 10. */
  function VariantNibble(r: Nibble): (v: Nibble)
    ensures 8 <= v <= 11
    ensures v % 4 == r % 4
  {
    ((r as bv8 & 0x3) | 0x8) as nat
  }

  predicate IsDraw(c: char) {
    c == 'x' || c == 'y'
  }

  /** How many random draws filling template `t` takes: one per `x` or `y`. */
  function Draws(t: string): nat {
    if t == [] then 0 else (if IsDraw(t[0]) then 1 else 0) + Draws(t[1..])
  }

  /** `t.replace(/[xy]/g, ...)`, each replaced character taking the next draw. */
  function Fill(t: string, draws: seq<Nibble>): (s: string)
    requires |draws| == Draws(t)
    ensures |s| == |t|
  {
    if t == [] then []
    else if t[0] == 'x' then [HexDigit(draws[0])] + Fill(t[1..], draws[1..])
    else if t[0] == 'y' then [HexDigit(VariantNibble(draws[0]))] + Fill(t[1..], draws[1..])
    else [t[0]] + Fill(t[1..], draws)
  }

  /**
   * Position `i` of a filled template: an `x` becomes the hex digit of the
   * draw it consumed (the draws are consumed left to right), a `y` becomes
   * that draw's variant nibble, and every other character is kept.
   */
  lemma {:induction false} FillAt(t: string, draws: seq<Nibble>, i: nat)
    requires |draws| == Draws(t) && i < |t|
    ensures IsDraw(t[i]) ==> Draws(t[..i]) < |draws|
    ensures Fill(t, draws)[i] ==
      if t[i] == 'x' then HexDigit(draws[Draws(t[..i])])
      else if t[i] == 'y' then HexDigit(VariantNibble(draws[Draws(t[..i])]))
      else t[i]
  {
    if i > 0 {
      var rest := if IsDraw(t[0]) then draws[1..] else draws;
      FillAt(t[1..], rest, i - 1);
      assert t[..i] == [t[0]] + t[1..][..i - 1];
      assert Draws(t[..i]) == (if IsDraw(t[0]) then 1 else 0) + Draws(t[1..][..i - 1]);
    }
  }

  lemma {:induction false} DrawsConcat(a: string, b: string)
    ensures Draws(a + b) == Draws(a) + Draws(b)
  {
    if a != [] {
      assert (a + b)[0] == a[0];
      assert (a + b)[1..] == a[1..] + b;
      DrawsConcat(a[1..], b);
    } else {
      assert a + b == b;
    }
  }

  /** The draws of five pieces add up to the draws of their concatenation. */
  lemma DrawsOfFive(a: string, b: string, c: string, d: string, e: string)
    ensures Draws(a + b + c + d + e) == Draws(a) + Draws(b) + Draws(c) + Draws(d) + Draws(e)
  {
    DrawsConcat(a, b);
    DrawsConcat(a + b, c);
    DrawsConcat(a + b + c, d);
    DrawsConcat(a + b + c + d, e);
  }

  /** The template makes 31 draws: 32 hex digits less the fixed version digit. */
  lemma TemplateDraws()
    ensures Draws(TEMPLATE) == 31
  {
    assert Draws("xxxxxxxx-") == 8 && Draws("xxxx-") == 4 && Draws("4xxx-") == 3;
    assert Draws("yxxx-") == 4 && Draws("xxxxxxxxxxxx") == 12;
    assert "xxxxxxxx-" + "xxxx-" == "xxxxxxxx-xxxx-";
    assert "xxxxxxxx-xxxx-" + "4xxx-" == "xxxxxxxx-xxxx-4xxx-";
    assert "xxxxxxxx-xxxx-4xxx-" + "yxxx-" == "xxxxxxxx-xxxx-4xxx-yxxx-";
    assert "xxxxxxxx-xxxx-4xxx-yxxx-" + "xxxxxxxxxxxx" == TEMPLATE;
    DrawsOfFive("xxxxxxxx-", "xxxx-", "4xxx-", "yxxx-", "xxxxxxxxxxxx");
  }

  /** `generateTenantId()`, given the 31 random draws it makes. */
  function GenerateTenantId(draws: seq<Nibble>): (id: string)
    requires |draws| == 31
    ensures |id| == |TEMPLATE|
  {
    TemplateDraws();
    Fill(TEMPLATE, draws)
  }

  /** A variant nibble prints as 8, 9, a or b. */
  lemma VariantDigit(r: Nibble)
    ensures HexDigit(VariantNibble(r)) in {'8', '9', 'a', 'b'}
  {
  }

  /**
   * Filling keeps every character other than `x` and `y`, turns each `x`
   * into a lowercase hex digit and each `y` into 8, 9, a or b.
   */
  lemma FillShape(t: string, draws: seq<Nibble>)
    requires |draws| == Draws(t)
    ensures forall i :: 0 <= i < |t| && !IsDraw(t[i]) ==> Fill(t, draws)[i] == t[i]
    ensures forall i :: 0 <= i < |t| && t[i] == 'x' ==> IsLowerHex(Fill(t, draws)[i])
    ensures forall i :: 0 <= i < |t| && t[i] == 'y' ==> Fill(t, draws)[i] in {'8', '9', 'a', 'b'}
  {
    forall i | 0 <= i < |t|
      ensures !IsDraw(t[i]) ==> Fill(t, draws)[i] == t[i]
      ensures t[i] == 'x' ==> IsLowerHex(Fill(t, draws)[i])
      ensures t[i] == 'y' ==> Fill(t, draws)[i] in {'8', '9', 'a', 'b'}
    {
      FillAt(t, draws, i);
      if t[i] == 'y' {
        VariantDigit(draws[Draws(t[..i])]);
      }
    }
  }

  /**
   * The tenant id has the 8-4-4-4-12 layout of RFC 4122 section 3, the
   * version digit `4` (section 4.4) and a variant digit among 8, 9, a, b
   * (section 4.1.1); every other position is a lowercase hex digit.
   */
  lemma TenantIdLayout(draws: seq<Nibble>)
    requires |draws| == 31
    ensures var id := GenerateTenantId(draws);
      && |id| == 36
      && id[8] == '-' && id[13] == '-' && id[18] == '-' && id[23] == '-'
      && id[14] == '4'
      && id[19] in {'8', '9', 'a', 'b'}
      && (forall i :: 0 <= i < 36 && i != 8 && i != 13 && i != 18 && i != 23 ==> IsLowerHex(id[i]))
      && '/' !in id
  {
    TemplateDraws();
    TemplateShape();
    UuidLayout(TEMPLATE, draws);
  }

  lemma UuidLayout(t: string, draws: seq<Nibble>)
    requires |draws| == Draws(t) && |t| == 36
    requires t[8] == '-' && t[13] == '-' && t[18] == '-' && t[23] == '-'
    requires t[14] == '4' && t[19] == 'y'
    requires forall i :: 0 <= i < 36 && i != 8 && i != 13 && i != 18 && i != 23 ==> t[i] == 'x' || t[i] == 'y' || t[i] == '4'
    ensures var id := Fill(t, draws);
      && |id| == 36
      && id[8] == '-' && id[13] == '-' && id[18] == '-' && id[23] == '-'
      && id[14] == '4'
      && id[19] in {'8', '9', 'a', 'b'}
      && (forall i :: 0 <= i < 36 && i != 8 && i != 13 && i != 18 && i != 23 ==> IsLowerHex(id[i]))
      && '/' !in id
  {
    FillShape(t, draws);
    var id := Fill(t, draws);
    assert forall i :: 0 <= i < 36 ==> id[i] != '/';
  }

  lemma TemplateShape()
    ensures |TEMPLATE| == 36
    ensures TEMPLATE[8] == '-' && TEMPLATE[13] == '-' && TEMPLATE[18] == '-' && TEMPLATE[23] == '-'
    ensures TEMPLATE[14] == '4' && TEMPLATE[19] == 'y'
    ensures forall i :: 0 <= i < 36 && i != 8 && i != 13 && i != 18 && i != 23 ==>
      TEMPLATE[i] == 'x' || TEMPLATE[i] == 'y' || TEMPLATE[i] == '4'
  {
  }

  // ---------------------------------------------------------------------------
  // Chat input: `inputValue.trim()`
  // ---------------------------------------------------------------------------

  /** The characters `String.prototype.trim` removes: white space and line terminators. */
  predicate IsJsWhitespace(c: char) {
    c in {'\t', '\n', '\U{000B}', '\U{000C}', '\r', ' ', '\U{00A0}', '\U{1680}',
          '\U{2000}', '\U{2001}', '\U{2002}', '\U{2003}', '\U{2004}', '\U{2005}', '\U{2006}',
          '\U{2007}', '\U{2008}', '\U{2009}', '\U{200A}', '\U{2028}', '\U{2029}', '\U{202F}',
          '\U{205F}', '\U{3000}', '\U{FEFF}'}
  }

  /** Leading white space removed: a suffix of `s` that does not start with white space. */
  function TrimStart(s: string): (r: string)
    ensures |r| <= |s| && r == s[|s| - |r|..]
    ensures r != [] ==> !IsJsWhitespace(r[0])
    ensures forall k :: 0 <= k < |s| - |r| ==> IsJsWhitespace(s[k])
  {
    if s != [] && IsJsWhitespace(s[0]) then TrimStart(s[1..]) else s
  }

  /** Trailing white space removed: a prefix of `s` that does not end with white space. */
  function TrimEnd(s: string): (r: string)
    ensures |r| <= |s| && r == s[..|r|]
    ensures r != [] ==> !IsJsWhitespace(r[|r| - 1])
    ensures forall k :: |r| <= k < |s| ==> IsJsWhitespace(s[k])
  {
    if s != [] && IsJsWhitespace(s[|s| - 1]) then TrimEnd(s[..|s| - 1]) else s
  }

  function Trim(s: string): (r: string)
    ensures |r| <= |s|
    ensures r != "" ==> !IsJsWhitespace(r[0]) && !IsJsWhitespace(r[|r| - 1])
  {
    TrimEnd(TrimStart(s))
  }

  /** An input trims to nothing exactly when every character of it is white space. */
  lemma BlankIffAllWhitespace(s: string)
    ensures Trim(s) == "" <==> forall k :: 0 <= k < |s| ==> IsJsWhitespace(s[k])
  {
  }

  // ---------------------------------------------------------------------------
  // The panel
  // ---------------------------------------------------------------------------

  /** The assistant's replies; their canned wording is not modelled. */
  datatype Reply = Greeting | Analysis(filename: string) | UploadApology

  datatype Message = User(text: string) | Ai(reply: Reply)

  /** What `uploadError` holds: the storage error, or the record request's error text. */
  datatype UploadFailure = StorageRejected(cause: StorageError) | ApiRejected(message: string)

  const UPLOADED_PREFIX := "Document téléchargé : "
  const ATTEMPTED_PREFIX := "Tentative de téléchargement : "
  const CLIENT_LANGUAGE := "fr"
  const UPLOAD_FALLBACK_ERROR := "Failed to upload document"

  /** The client SDK's reading of a failed response: `error.error || 'Failed to upload document'`. */
  function ErrorText(resp: Response): (text: string)
    ensures text != ""
  {
    if resp.body.Error? && resp.body.message != "" then resp.body.message else UPLOAD_FALLBACK_ERROR
  }

  class AgentPanel {
    /** The tenant id generated once per page load. */
    const tenantId: string
    var file: Option<File>
    var isProcessing: bool
    var uploadedDocument: Option<Document>
    var uploadError: Option<UploadFailure>
    var chat: seq<Message>
    var input: string

    /** The generated tenant id is a non-empty path segment. */
    ghost predicate Valid()
      reads this
    {
      tenantId != "" && '/' !in tenantId
    }

    constructor (draws: seq<Nibble>)
      requires |draws| == 31
      ensures Valid() && tenantId == GenerateTenantId(draws)
      ensures file.None? && !isProcessing && uploadedDocument.None? && uploadError.None?
      ensures chat == [Ai(Greeting)] && input == ""
    {
      tenantId := GenerateTenantId(draws);
      TenantIdLayout(draws);
      file, isProcessing, uploadedDocument, uploadError := None, false, None, None;
      chat, input := [Ai(Greeting)], "";
    }

    /**
     * `onDrop`: store the first accepted file under
     * `documents/<tenant>/<clientNow>_<name>`, and only then ask the server
     * to record it. The server derives its own path from `serverNow`, so the
     * record's path need not name the stored object.
     */
    method OnDrop(accepted: seq<File>, bucket: Bucket, table: DocumentTable, clientNow: nat,
                  storageFails: bool, newId: string, serverNow: nat, createdAt: nat, insertFails: bool)
      requires Valid() && table.Valid()
      modifies this, bucket, table
      ensures Valid() && table.Valid()
      ensures accepted == [] ==> unchanged(this, bucket, table)
      ensures accepted != [] ==>
        var f := accepted[0];
        var path := UploadPath(tenantId, clientNow, f.name);
        var stored := !storageFails && path !in old(bucket.objects);
        var recorded := stored && f.name != "" && !insertFails && Find(old(table.rows), newId).None?;
        // common to every path
        && file == Some(f) && !isProcessing && input == old(input)
        && bucket.calls == old(bucket.calls) + [Put(path)]
        && bucket.objects == (if stored then old(bucket.objects)[path := f.content] else old(bucket.objects))
        && |chat| == |old(chat)| + 2 && chat[..|old(chat)|] == old(chat)
        // the storage upload failed: no record request
        && (!stored ==>
              && table.inserts == old(table.inserts) && table.rows == old(table.rows)
              && uploadError == Some(StorageRejected(if storageFails then StorageUnavailable else AlreadyExists))
              && uploadedDocument == old(uploadedDocument))
        // the record was created
        && (recorded ==>
              && uploadError.None? && uploadedDocument.Some?
              && table.rows == old(table.rows) + [uploadedDocument.value]
              && uploadedDocument.value.id == newId
              && uploadedDocument.value.tenantId == tenantId
              && uploadedDocument.value.filename == f.name
              && uploadedDocument.value.language == Some(CLIENT_LANGUAGE)
              && uploadedDocument.value.storagePath == UploadPath(tenantId, serverNow, f.name)
              // the record names the stored object only when the two clocks agree
              && (uploadedDocument.value.storagePath == path <==> serverNow == clientNow)
              && chat == old(chat) + [User(UPLOADED_PREFIX + f.name), Ai(Analysis(f.name))])
        // the storage upload or the record request failed
        && (!recorded ==>
              && table.rows == old(table.rows)
              && uploadedDocument == old(uploadedDocument) && uploadError.Some?
              && (stored ==> uploadError == Some(ApiRejected(if f.name == "" then MISSING_UPLOAD_FIELDS else INSERT_FAILED)))
              && chat == old(chat) + [User(ATTEMPTED_PREFIX + f.name), Ai(UploadApology)])
    {
      if accepted == [] {
        return;
      }
      var dropped := accepted[0];
      file := Some(dropped);
      isProcessing := true;
      uploadError := None;

      var storagePath := UploadPath(tenantId, clientNow, dropped.name);
      var storageError := bucket.Upload(storagePath, dropped.content, storageFails);
      if storageError.Some? {
        isProcessing := false;
        uploadError := Some(StorageRejected(storageError.value));
        chat := chat + [User(ATTEMPTED_PREFIX + dropped.name), Ai(UploadApology)];
        return;
      }

      var request := UploadRequest(Some(dropped.name), Some(dropped.size), Some(dropped.mimeType),
                                   Some(CLIENT_LANGUAGE), Some(tenantId), None);
      var resp := UploadDocument(table, request, newId, serverNow, createdAt, insertFails);
      if 200 <= resp.code < 300 && resp.body.Uploaded? {
        UploadPathRoundTrip(tenantId, clientNow, dropped.name);
        UploadPathRoundTrip(tenantId, serverNow, dropped.name);
        uploadedDocument := Some(resp.body.document);
        isProcessing := false;
        chat := chat + [User(UPLOADED_PREFIX + dropped.name), Ai(Analysis(dropped.name))];
      } else {
        assert |MISSING_UPLOAD_FIELDS| > 0 && |INSERT_FAILED| > 0;
        isProcessing := false;
        uploadError := Some(ApiRejected(ErrorText(resp)));
        chat := chat + [User(ATTEMPTED_PREFIX + dropped.name), Ai(UploadApology)];
      }
    }

    /** `handleSendMessage`: a blank input is ignored; otherwise it is appended and cleared. */
    method SendMessage()
      modifies this`chat, this`input
      ensures Trim(old(input)) == "" ==> chat == old(chat) && input == old(input)
      ensures Trim(old(input)) != "" ==> chat == old(chat) + [User(old(input))] && input == ""
    {
      if Trim(input) == "" {
        return;
      }
      chat := chat + [User(input)];
      input := "";
    }
  }
}
