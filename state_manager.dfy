/** The in-memory draft store: one pending draft per WhatsApp sender. The
    module-level dictionary of the source is the `drafts` field of a
    DraftStore object that the orchestrator's handlers mutate in place; the
    pure map transitions below say what each operation does to it. */
module StateManager {
  import opened Common

  /** A pending post: the media file to publish and its current caption. */
  datatype Draft = Draft(imagePath: string, caption: string)

  /** get_draft on a snapshot of the store. */
  function Lookup(drafts: map<string, Draft>, user: string): Option<Draft>
  {
    if user in drafts then Some(drafts[user]) else None
  }

  /** save_draft: create or overwrite, unconditionally. */
  function Saved(drafts: map<string, Draft>, user: string, imagePath: string, caption: string): map<string, Draft>
  {
    drafts[user := Draft(imagePath, caption)]
  }

  /** update_draft_caption: replace the caption of an existing draft, else no-op. */
  function CaptionUpdated(drafts: map<string, Draft>, user: string, caption: string): map<string, Draft>
  {
    if user in drafts then drafts[user := drafts[user].(caption := caption)] else drafts
  }

  /** clear_draft: remove the entry if present, else no-op. */
  function Cleared(drafts: map<string, Draft>, user: string): map<string, Draft>
  {
    if user in drafts then drafts - {user} else drafts
  }

  /** Two stores agree on every user except possibly `user`. */
  ghost predicate SameExcept(a: map<string, Draft>, b: map<string, Draft>, user: string)
  {
    forall v :: v != user ==> Lookup(a, v) == Lookup(b, v)
  }

  lemma SaveThenGet(drafts: map<string, Draft>, user: string, imagePath: string, caption: string)
    ensures Lookup(Saved(drafts, user, imagePath, caption), user) == Some(Draft(imagePath, caption))
    ensures SameExcept(Saved(drafts, user, imagePath, caption), drafts, user)
  {
  }

  lemma UpdateWithoutDraftIsNoop(drafts: map<string, Draft>, user: string, caption: string)
    requires Lookup(drafts, user) == None
    ensures CaptionUpdated(drafts, user, caption) == drafts
    ensures Lookup(CaptionUpdated(drafts, user, caption), user) == None
  {
  }

  lemma UpdateReplacesCaptionOnly(drafts: map<string, Draft>, user: string, caption: string)
    requires Lookup(drafts, user).Some?
    ensures Lookup(CaptionUpdated(drafts, user, caption), user)
      == Some(Draft(drafts[user].imagePath, caption))
    ensures SameExcept(CaptionUpdated(drafts, user, caption), drafts, user)
  {
  }

  lemma ClearThenGet(drafts: map<string, Draft>, user: string)
    ensures Lookup(Cleared(drafts, user), user) == None
    ensures Cleared(Cleared(drafts, user), user) == Cleared(drafts, user)
    ensures Lookup(drafts, user) == None ==> Cleared(drafts, user) == drafts
    ensures SameExcept(Cleared(drafts, user), drafts, user)
  {
  }

  class DraftStore {
    var drafts: map<string, Draft>

    /** The store is empty at start-up (drafts do not survive a restart). */
    constructor ()
      ensures drafts == map[]
    {
      drafts := map[];
    }

    method Save(user: string, imagePath: string, caption: string)
      modifies this
      ensures drafts == Saved(old(drafts), user, imagePath, caption)
      ensures Lookup(drafts, user) == Some(Draft(imagePath, caption))
      ensures SameExcept(drafts, old(drafts), user)
    {
      drafts := drafts[user := Draft(imagePath, caption)];
    }

    /** Reads the store and changes nothing. */
    method Get(user: string) returns (d: Option<Draft>)
      ensures d.Some? <==> user in drafts
      ensures d.Some? ==> d.value == drafts[user]
    {
      if user in drafts {
        d := Some(drafts[user]);
      } else {
        d := None;
      }
    }

    method UpdateCaption(user: string, caption: string)
      modifies this
      ensures drafts == CaptionUpdated(old(drafts), user, caption)
      ensures user !in old(drafts) ==> drafts == old(drafts)
      ensures user in old(drafts) ==> Lookup(drafts, user) == Some(Draft(old(drafts)[user].imagePath, caption))
      ensures SameExcept(drafts, old(drafts), user)
    {
      if user in drafts {
        drafts := drafts[user := drafts[user].(caption := caption)];
      }
    }

    method Clear(user: string)
      modifies this
      ensures drafts == Cleared(old(drafts), user)
      ensures Lookup(drafts, user) == None
      ensures user !in old(drafts) ==> drafts == old(drafts)
      ensures SameExcept(drafts, old(drafts), user)
    {
      if user in drafts {
        drafts := drafts - {user};
      }
    }
  }
}
