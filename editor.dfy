/**
 * The diary editor dialog: view mode, edit mode with three fields, and the
 * save, delete and cancel handlers. The `onUpdate` and `onDelete` callbacks
 * are supplied by the page that opens the dialog; the model takes their
 * answers as arguments and hands back what they are asked to do.
 */
module DiaryEditor {
  import opened Optional
  import opened Text
  import opened Stamps
  import opened DiaryStore

  /** The update `handleSave` sends: the three edited fields and the save time, nothing else. */
  function EditPatch(title: string, originalContent: string, aiContent: string, now: Stamp): (p: Patch) {
    Patch(Some(title), Some(originalContent), Some(aiContent), None, Some(now))
  }

  /**
   * Applying the update keeps the id and the creation time, takes the three
   * edited fields and stamps the save time.
   */
  lemma EditPatchApplied(d: Diary, title: string, originalContent: string, aiContent: string, now: Stamp)
    ensures Merge(d, EditPatch(title, originalContent, aiContent, now))
      == Diary(d.id, title, originalContent, aiContent, d.createdAt, now)
  {
  }

  /** The "(modified …)" note is shown when the two timestamps differ. */
  predicate ShowsModified(d: Diary) {
    d.updatedAt != d.createdAt
  }

  /** An entry saved through the editor at a time other than its creation shows the note. */
  lemma EditedShowsModified(d: Diary, title: string, originalContent: string, aiContent: string, now: Stamp)
    ensures ShowsModified(Merge(d, EditPatch(title, originalContent, aiContent, now))) <==> now != d.createdAt
  {
  }

  /** A row inserted without timestamps takes the same clock reading for both and shows no note. */
  lemma FreshRowNotModified(id: int, title: string, originalContent: string, aiContent: string, now: Stamp)
    ensures !ShowsModified(Materialise(id, InsertPayload(title, originalContent, aiContent, None, None), now))
  {
  }

  /**
   * After the update reaches the table, the row with the editor's id holds the
   * edited fields and the save time, and every other row is as it was.
   */
  lemma EditReachesRow(rows: seq<Diary>, d: Diary, title: string, originalContent: string, aiContent: string, now: Stamp, i: int)
    requires 0 <= i < |rows|
    ensures Patched(rows, d.id, EditPatch(title, originalContent, aiContent, now))[i]
      == if rows[i].id == d.id then Diary(d.id, title, originalContent, aiContent, rows[i].createdAt, now) else rows[i]
  {
  }

  /** The dialog's state. `diary` is the entry it was opened on. */
  class Editor {
    const diary: Diary
    var isEditing: bool
    var title: string
    var originalContent: string
    var aiContent: string
    var isDeleting: bool
    var isSaving: bool
    /** Whether `onClose` has been called. */
    var closed: bool

    /** Opening the dialog: view mode, the fields holding the entry's values. */
    constructor (diary: Diary)
      ensures this.diary == diary && !isEditing && !isDeleting && !isSaving && !closed
      ensures title == diary.title && originalContent == diary.originalContent && aiContent == diary.aiContent
    {
      this.diary := diary;
      isEditing := false;
      title := diary.title;
      originalContent := diary.originalContent;
      aiContent := diary.aiContent;
      isDeleting := false;
      isSaving := false;
      closed := false;
    }

    /** The save button is enabled when no save is running and no field is blank. */
    predicate SaveEnabled()
      reads this
    {
      !isSaving && !IsBlank(title) && !IsBlank(originalContent) && !IsBlank(aiContent)
    }

    /** The edit button, shown in view mode only. */
    method BeginEdit()
      requires !isEditing
      modifies this
      ensures isEditing
      ensures title == old(title) && originalContent == old(originalContent) && aiContent == old(aiContent)
      ensures isDeleting == old(isDeleting) && isSaving == old(isSaving) && closed == old(closed)
    {
      isEditing := true;
    }

    /** Typing into the three inputs, which exist in edit mode only. */
    method EditFields(newTitle: string, newOriginal: string, newAi: string)
      requires isEditing
      modifies this
      ensures title == newTitle && originalContent == newOriginal && aiContent == newAi
      ensures isEditing == old(isEditing) && isDeleting == old(isDeleting) && isSaving == old(isSaving) && closed == old(closed)
    {
      title, originalContent, aiContent := newTitle, newOriginal, newAi;
    }

    /**
     * The first half of `handleSave`: mark the save as running and build the
     * update for the entry's id. While it runs the save button is disabled.
     */
    method StartSave(now: Stamp) returns (id: int, updates: Patch)
      modifies this
      ensures id == diary.id && updates == EditPatch(title, originalContent, aiContent, now)
      ensures isSaving && !SaveEnabled()
      ensures title == old(title) && originalContent == old(originalContent) && aiContent == old(aiContent)
      ensures isEditing == old(isEditing) && isDeleting == old(isDeleting) && closed == old(closed)
    {
      isSaving := true;
      id := diary.id;
      updates := EditPatch(title, originalContent, aiContent, now);
    }

    /** The second half of `handleSave`: the save has ended; success leaves edit mode. */
    method FinishSave(success: bool)
      modifies this
      ensures !isSaving
      ensures isEditing == (old(isEditing) && !success)
      ensures title == old(title) && originalContent == old(originalContent) && aiContent == old(aiContent)
      ensures isDeleting == old(isDeleting) && closed == old(closed)
    {
      isSaving := false;
      if success {
        isEditing := false;
      }
    }

    /** `handleSave` as a whole, with `success` the answer of `onUpdate`. */
    method HandleSave(now: Stamp, success: bool) returns (id: int, updates: Patch)
      modifies this
      ensures id == diary.id && updates == EditPatch(old(title), old(originalContent), old(aiContent), now)
      ensures !isSaving
      ensures isEditing == (old(isEditing) && !success)
      ensures title == old(title) && originalContent == old(originalContent) && aiContent == old(aiContent)
      ensures isDeleting == old(isDeleting) && closed == old(closed)
    {
      id, updates := StartSave(now);
      FinishSave(success);
    }

    /**
     * The save button, shown in edit mode only: a click on the disabled
     * button does nothing; otherwise `handleSave` runs and its update is
     * handed back.
     */
    method ClickSave(now: Stamp, success: bool) returns (sent: Option<Patch>)
      requires isEditing
      modifies this
      ensures sent.Some? <==> old(SaveEnabled())
      ensures sent.Some? ==> sent.value == EditPatch(old(title), old(originalContent), old(aiContent), now)
      ensures isSaving == old(isSaving)
      ensures isEditing == (old(isEditing) && !(old(SaveEnabled()) && success))
      ensures title == old(title) && originalContent == old(originalContent) && aiContent == old(aiContent)
      ensures isDeleting == old(isDeleting) && closed == old(closed)
    {
      if !SaveEnabled() {
        return None;
      }
      var id, updates := HandleSave(now, success);
      sent := Some(updates);
    }

    /**
     * `handleDelete`, with `confirmed` the answer to the confirmation prompt
     * and `success` the answer of `onDelete`. Its button is shown in view mode
     * only and is disabled while a deletion runs. Without confirmation nothing
     * happens; the dialog closes only when the deletion succeeded.
     */
    method HandleDelete(confirmed: bool, success: bool) returns (deleted: Option<int>)
      requires !isEditing && !isDeleting
      modifies this
      ensures deleted == if confirmed then Some(diary.id) else None
      ensures isDeleting == (old(isDeleting) && !confirmed)
      ensures closed == (old(closed) || (confirmed && success))
      ensures isEditing == old(isEditing) && isSaving == old(isSaving)
      ensures title == old(title) && originalContent == old(originalContent) && aiContent == old(aiContent)
    {
      if !confirmed {
        return None;
      }
      isDeleting := true;
      deleted := Some(diary.id);
      isDeleting := false;
      if success {
        closed := true;
      }
    }

    /**
     * `handleCancel`, whose button is shown in edit mode and disabled while a
     * save runs: the fields go back to the entry's values and the dialog
     * leaves edit mode.
     */
    method HandleCancel()
      requires isEditing && !isSaving
      modifies this
      ensures !isEditing
      ensures title == diary.title && originalContent == diary.originalContent && aiContent == diary.aiContent
      ensures isDeleting == old(isDeleting) && isSaving == old(isSaving) && closed == old(closed)
    {
      title := diary.title;
      originalContent := diary.originalContent;
      aiContent := diary.aiContent;
      isEditing := false;
    }
  }

  /** Whatever was typed, cancelling leaves the dialog as it was when opened. */
  method EditThenCancel(d: Diary, newTitle: string, newOriginal: string, newAi: string) returns (e: Editor)
    ensures fresh(e) && e.diary == d && !e.isEditing && !e.isSaving && !e.isDeleting && !e.closed
    ensures e.title == d.title && e.originalContent == d.originalContent && e.aiContent == d.aiContent
  {
    e := new Editor(d);
    e.BeginEdit();
    e.EditFields(newTitle, newOriginal, newAi);
    e.HandleCancel();
  }

  /**
   * Editing an entry and saving it with a non-blank title, text and enhanced
   * text sends exactly those three fields and the save time, and leaves edit
   * mode once the update succeeds.
   */
  method EditThenSave(d: Diary, newTitle: string, newOriginal: string, newAi: string, now: Stamp) returns (sent: Option<Patch>)
    requires !IsBlank(newTitle) && !IsBlank(newOriginal) && !IsBlank(newAi)
    ensures sent == Some(EditPatch(newTitle, newOriginal, newAi, now))
    ensures Merge(d, sent.value) == Diary(d.id, newTitle, newOriginal, newAi, d.createdAt, now)
  {
    var e := new Editor(d);
    e.BeginEdit();
    e.EditFields(newTitle, newOriginal, newAi);
    sent := e.ClickSave(now, true);
    EditPatchApplied(d, newTitle, newOriginal, newAi, now);
  }
}
