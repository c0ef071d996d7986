/**
 * The writing page: the original text, its enhanced version and a title,
 * the enhance button that posts the text to the enhancement endpoint, the
 * save button that inserts the entry, and the list of saved entries. This
 * page talks to the database client directly, without the fallback wrapper.
 */
module DiaryPage {
  import opened Optional
  import opened Text
  import opened Stamps
  import opened DiaryStore
  import opened Enhance
  import opened EnhanceRoute

  /** `if (data.enhancedText)`: the text the page takes from the endpoint's JSON answer, if any. */
  function Adopted(response: Response): (r: Option<string>)
    ensures r.Some? <==> response.EnhancedJson? && response.enhancedText != ""
    ensures r.Some? ==> r.value == response.enhancedText
  {
    if response.EnhancedJson? && response.enhancedText != "" then Some(response.enhancedText) else None
  }

  /**
   * The text the page adopts when the request for `original` is delivered.
   * The body is `JSON.stringify({ text })`, which always decodes.
   */
  function EndpointAnswer(svc: Service, original: string, reply: ModelReply): Option<string> {
    var body := Parsed(Str(original));
    Adopted(Post(svc, body, reply).response)
  }

  /**
   * A text within the endpoint's length cap gets the service's answer (unless
   * that answer is empty); a longer one gets a 400 answer without
   * `enhancedText`, which the page silently ignores.
   */
  lemma EndpointAnswerCases(svc: Service, original: string, reply: ModelReply)
    requires !IsBlank(original)
    ensures Utf16Length(original) <= MaxLength ==>
      var text := EnhanceDiary(svc, original, reply).text;
      EndpointAnswer(svc, original, reply) == if text != "" then Some(text) else None
    ensures Utf16Length(original) > MaxLength ==> EndpointAnswer(svc, original, reply) == None
  {
    assert IsBlank("");
  }

  /** Without an API key the page receives the demo placeholder, which embeds the text typed. */
  lemma DemoAnswerKeepsText(svc: Service, original: string, reply: ModelReply)
    requires !IsBlank(original) && Utf16Length(original) <= MaxLength
    requires !Ready(svc)
    ensures EndpointAnswer(svc, original, reply) == Some(DemoText(original))
    ensures Contains(EndpointAnswer(svc, original, reply).value, original)
  {
    EndpointAnswerCases(svc, original, reply);
  }

  /** The demo placeholder starts with a non-space character, so it is never blank. */
  lemma DemoTextNotBlank(original: string)
    ensures !IsBlank(DemoText(original))
  {
    BlankIffAllWhitespace(DemoText(original));
    assert DemoText(original)[0] == '\U{2728}';
  }

  /** The page's state. */
  class Page {
    var originalText: string
    var enhancedText: string
    var isLoading: bool
    var diaries: seq<Diary>
    var showSaved: bool
    var title: string

    constructor ()
      ensures originalText == "" && enhancedText == "" && title == ""
      ensures !isLoading && diaries == [] && !showSaved
    {
      originalText := "";
      enhancedText := "";
      isLoading := false;
      diaries := [];
      showSaved := false;
      title := "";
    }

    /** Typing into the title input and the original text area; the enhanced text is display-only. */
    method EditFields(newTitle: string, newOriginal: string)
      modifies this
      ensures title == newTitle && originalText == newOriginal
      ensures enhancedText == old(enhancedText)
      ensures isLoading == old(isLoading) && diaries == old(diaries) && showSaved == old(showSaved)
    {
      title, originalText := newTitle, newOriginal;
    }

    /**
     * `enhanceDiary`. A blank original text sends nothing and changes nothing.
     * Otherwise the text is posted; `delivered` is false when the request or
     * the decoding of its answer throws. The enhanced text changes only when
     * an answer arrives carrying a non-empty `enhancedText`, and loading ends
     * whatever happened.
     */
    method EnhanceEntry(svc: Service, reply: ModelReply, delivered: bool) returns (sent: Option<string>)
      modifies this
      ensures sent == if IsBlank(old(originalText)) then None else Some(old(originalText))
      ensures enhancedText ==
        if sent.Some? && delivered && EndpointAnswer(svc, old(originalText), reply).Some?
        then EndpointAnswer(svc, old(originalText), reply).value
        else old(enhancedText)
      ensures isLoading == (old(isLoading) && sent.None?)
      ensures originalText == old(originalText) && title == old(title)
      ensures diaries == old(diaries) && showSaved == old(showSaved)
    {
      if IsBlank(originalText) {
        return None;
      }
      isLoading := true;
      sent := Some(originalText);
      if delivered {
        var body := Parsed(Str(originalText));
        var answer := Post(svc, body, reply).response;
        if answer.EnhancedJson? && answer.enhancedText != "" {
          enhancedText := answer.enhancedText;
        }
      }
      isLoading := false;
    }

    /** All three fields hold something other than whitespace. */
    predicate ReadyToSave()
      reads this
    {
      !IsBlank(title) && !IsBlank(originalText) && !IsBlank(enhancedText)
    }

    /** `loadDiaries`: on success the list becomes every row, newest first; on error it stays. */
    method LoadDiaries(table: DiaryTable, fails: bool)
      modifies this
      ensures diaries == if fails then old(diaries) else SortByCreated(table.rows, false)
      ensures originalText == old(originalText) && enhancedText == old(enhancedText) && title == old(title)
      ensures isLoading == old(isLoading) && showSaved == old(showSaved)
    {
      if !fails {
        diaries := SortByCreated(table.rows, false);
      }
    }

    /**
     * `saveDiary`. With a blank field nothing is inserted. Otherwise the
     * three fields are inserted with no timestamps, so both take the
     * database clock; on success the fields are cleared and the list
     * reloaded, on failure everything stays.
     */
    method SaveEntry(table: DiaryTable, now: Stamp, insertFails: bool, loadFails: bool) returns (saved: bool)
      requires table.Valid()
      modifies this, table
      ensures table.Valid()
      ensures saved == (old(ReadyToSave()) && !insertFails)
      ensures saved ==> (table.rows == old(table.rows)
        + [Materialise(old(table.nextId), InsertPayload(old(title), old(originalText), old(enhancedText), None, None), now)]
        && table.nextId == old(table.nextId) + 1)
      ensures !saved ==> table.rows == old(table.rows) && table.nextId == old(table.nextId)
      ensures saved ==> title == "" && originalText == "" && enhancedText == ""
      ensures saved ==> diaries == if loadFails then old(diaries) else SortByCreated(table.rows, false)
      ensures !saved ==> (title == old(title) && originalText == old(originalText)
        && enhancedText == old(enhancedText) && diaries == old(diaries))
      ensures isLoading == old(isLoading) && showSaved == old(showSaved)
    {
      if !ReadyToSave() {
        return false;
      }
      var payload := InsertPayload(title, originalText, enhancedText, None, None);
      saved := table.Insert(payload, now, insertFails);
      if saved {
        title, originalText, enhancedText := "", "", "";
        LoadDiaries(table, loadFails);
      }
    }

    /** `toggleSavedDiaries`: opening the list reloads it, closing it does not. */
    method ToggleSavedDiaries(table: DiaryTable, fails: bool)
      modifies this
      ensures showSaved == !old(showSaved)
      ensures diaries == if !old(showSaved) && !fails then SortByCreated(table.rows, false) else old(diaries)
      ensures originalText == old(originalText) && enhancedText == old(enhancedText) && title == old(title)
      ensures isLoading == old(isLoading)
    {
      if !showSaved {
        LoadDiaries(table, fails);
      }
      showSaved := !showSaved;
    }
  }

  /** The list this page shows is the one the store's `getDiaries` returns when the store is configured. */
  lemma PageListMatchesStore(cfg: Config, table: DiaryTable)
    requires IsConfigured(cfg)
    ensures GetDiaries(cfg, table, false) == SortByCreated(table.rows, false)
  {
  }

  /**
   * Without an API key: write a text and a title, enhance, save. The saved
   * row holds the text, the demo placeholder embedding it, and equal
   * creation and update times, and the page is cleared.
   */
  method WriteEnhanceSave(svc: Service, reply: ModelReply, table: DiaryTable, entryTitle: string, original: string, now: Stamp)
    returns (page: Page)
    requires table.Valid()
    requires !Ready(svc)
    requires !IsBlank(entryTitle) && !IsBlank(original) && Utf16Length(original) <= MaxLength
    modifies table
    ensures fresh(page) && table.Valid()
    ensures table.rows == old(table.rows)
      + [Diary(old(table.nextId), entryTitle, original, DemoText(original), now, now)]
    ensures Contains(table.rows[|table.rows| - 1].aiContent, original)
    ensures page.title == "" && page.originalText == "" && page.enhancedText == ""
  {
    page := new Page();
    page.EditFields(entryTitle, original);
    DemoAnswerKeepsText(svc, original, reply);
    var sent := page.EnhanceEntry(svc, reply, true);
    DemoTextNotBlank(original);
    var saved := page.SaveEntry(table, now, false, false);
  }
}
