/** The project and service editors of the admin panel
    (`src/app/admin/portfolio/page.tsx`, `src/app/admin/services/page.tsx`):
    the draft being edited, the list-entry inputs, the slug that follows the
    title while creating, the save guard and the request a save sends. */
module Editors {
  import opened Common
  import opened Slugs

  /** `list.filter((_, j) => j !== i)`: every entry but the one at `i`. */
  function RemoveAt<T>(xs: seq<T>, i: int): (r: seq<T>)
    ensures 0 <= i < |xs| ==> r == xs[..i] + xs[i + 1..]
    ensures !(0 <= i < |xs|) ==> r == xs
  {
    if xs == [] then []
    else (if i == 0 then [] else [xs[0]]) + RemoveAt(xs[1..], i - 1)
  }

  /** Adding an entry and then removing it again gives the list back. */
  lemma RemoveAppended<T>(xs: seq<T>, x: T)
    ensures RemoveAt(xs + [x], |xs|) == xs
  {
    assert (xs + [x])[..|xs|] == xs;
  }

  /** The slug once the title is `title`: generated from the title while a
      new entry is created (no slug being edited), kept otherwise. */
  function SlugAfterTitle(editingSlug: Option<string>, slug: string, title: string): (r: string)
    ensures !Truthy(editingSlug) ==> r == GenerateSlug(title) && NoDoubleDash(r)
    ensures !Truthy(editingSlug) ==> forall i :: 0 <= i < |r| ==> IsSlugChar(r[i])
    ensures Truthy(editingSlug) ==> r == slug
  {
    SlugShape(title);
    if Truthy(editingSlug) then slug else GenerateSlug(title)
  }

  /** The method and URL of a save: a PATCH of the edited entry when the
      editor was opened on an existing slug, else a POST to the collection. */
  datatype Request = Request(verb: string, url: string)

  function SaveRequestFor(collection: string, editingSlug: Option<string>): (r: Request)
    ensures Truthy(editingSlug) ==> r == Request("PATCH", collection + "/" + editingSlug.value)
    ensures !Truthy(editingSlug) ==> r == Request("POST", collection)
  {
    if Truthy(editingSlug) then Request("PATCH", collection + "/" + editingSlug.value)
    else Request("POST", collection)
  }

  /** How the save request ended: `success` in the reply, a reply without
      it, or a thrown error. */
  datatype SaveOutcome = Succeeded | Refused | Threw

  // ---------------------------------------------------------------------
  // Projects

  /** The editor's copy of a project (`emptyProject`'s shape). */
  datatype ProjectDraft = ProjectDraft(
    title: string, titleAr: string, slug: string, description: string, descriptionAr: string,
    category: string, technologies: seq<string>, clientName: string, completionDate: string,
    featured: bool, images: seq<string>, liveUrl: string, githubUrl: string,
    displayOrder: int, status: string)

  const EmptyProject := ProjectDraft("", "", "", "", "", "Web", [], "", "", false, [], "", "", 0, "draft")

  class ProjectEditor {
    var isEditing: bool
    var draft: Option<ProjectDraft>
    var editingSlug: Option<string>
    var techInput: string
    var saving: bool

    /** The state when the page mounts. */
    constructor ()
      ensures !isEditing && draft.None? && editingSlug.None? && techInput == "" && !saving
    {
      isEditing := false;
      draft := None;
      editingSlug := None;
      techInput := "";
      saving := false;
    }

    /** The "add project" button. */
    method StartNew()
      modifies this
      ensures isEditing && draft == Some(EmptyProject) && editingSlug.None?
      ensures techInput == old(techInput) && saving == old(saving)
    {
      draft := Some(EmptyProject);
      editingSlug := None;
      isEditing := true;
    }

    /** The edit button of a listed project. */
    method StartEdit(d: ProjectDraft, slug: string)
      modifies this
      ensures isEditing && draft == Some(d) && editingSlug == Some(slug)
      ensures techInput == old(techInput) && saving == old(saving)
    {
      draft := Some(d);
      editingSlug := Some(slug);
      isEditing := true;
    }

    /** The cancel buttons. */
    method Cancel()
      modifies this
      ensures !isEditing && draft.None? && editingSlug.None?
      ensures techInput == old(techInput) && saving == old(saving)
    {
      isEditing := false;
      draft := None;
      editingSlug := None;
    }

    /** `addTech`: with a draft and a non-blank input, the trimmed input is
        appended and the input cleared; otherwise nothing changes. */
    method AddTech()
      modifies this
      ensures old(draft).Some? && Trim(old(techInput)) != "" ==>
        draft == Some(old(draft).value.(technologies := old(draft).value.technologies + [Trim(old(techInput))])) &&
        techInput == ""
      ensures old(draft).None? || Trim(old(techInput)) == "" ==>
        draft == old(draft) && techInput == old(techInput)
      ensures isEditing == old(isEditing) && editingSlug == old(editingSlug) && saving == old(saving)
    {
      var entry := Trim(techInput);
      if entry != "" && draft.Some? {
        draft := Some(draft.value.(technologies := draft.value.technologies + [entry]));
        techInput := "";
      }
    }

    /** `removeTech(index)`: the entry at `index` leaves the list, the rest
        keep their order. */
    method RemoveTech(index: int)
      modifies this
      ensures old(draft).Some? ==>
        draft == Some(old(draft).value.(technologies := RemoveAt(old(draft).value.technologies, index)))
      ensures old(draft).None? ==> draft.None?
      ensures isEditing == old(isEditing) && editingSlug == old(editingSlug)
      ensures techInput == old(techInput) && saving == old(saving)
    {
      if draft.Some? {
        draft := Some(draft.value.(technologies := RemoveAt(draft.value.technologies, index)));
      }
    }

    /** Typing in the title field: the title changes, and while a new
        project is being created the slug is regenerated from it. */
    method SetTitle(title: string)
      requires draft.Some?
      modifies this
      ensures draft == Some(old(draft).value.(title := title, slug := SlugAfterTitle(editingSlug, old(draft).value.slug, title)))
      ensures isEditing == old(isEditing) && editingSlug == old(editingSlug)
      ensures techInput == old(techInput) && saving == old(saving)
    {
      draft := Some(draft.value.(title := title, slug := SlugAfterTitle(editingSlug, draft.value.slug, title)));
    }

    /** The save button is enabled. */
    predicate CanSave()
      reads this
    {
      !saving && draft.Some? && draft.value.title != "" && draft.value.slug != "" &&
      draft.value.description != "" && |draft.value.technologies| > 0
    }

    /** `handleSave`: the request sent (none without a draft) and the state
        after the reply; a success closes the editor, anything else keeps
        the draft open. */
    method Save(outcome: SaveOutcome) returns (sent: Option<Request>)
      modifies this
      ensures old(draft).None? ==> sent.None? && draft.None? && saving == old(saving)
      ensures old(draft).Some? ==> sent == Some(SaveRequestFor("/api/portfolio", old(editingSlug))) && !saving
      ensures old(draft).Some? && outcome == Succeeded ==> !isEditing && draft.None? && editingSlug.None?
      ensures old(draft).Some? && outcome != Succeeded ==>
        isEditing == old(isEditing) && draft == old(draft) && editingSlug == old(editingSlug)
      ensures techInput == old(techInput)
    {
      if draft.None? {
        return None;
      }
      saving := true;
      sent := Some(SaveRequestFor("/api/portfolio", editingSlug));
      if outcome == Succeeded {
        isEditing := false;
        draft := None;
        editingSlug := None;
      }
      saving := false;
    }
  }

  // ---------------------------------------------------------------------
  // Services

  /** The editor's copy of a service (`emptyService`'s shape). */
  datatype ServiceDraft = ServiceDraft(
    title: string, titleAr: string, slug: string, shortDescription: string, shortDescAr: string,
    fullDescription: string, fullDescAr: string, icon: string, features: seq<string>,
    featuresAr: seq<string>, pricingFrom: Option<int>, displayOrder: int, isActive: bool)

  const EmptyService := ServiceDraft("", "", "", "", "", "", "", "\U{1F680}", [], [], None, 0, true)

  class ServiceEditor {
    var isEditing: bool
    var draft: Option<ServiceDraft>
    var editingSlug: Option<string>
    var featureInput: string
    var featureInputAr: string
    var saving: bool

    constructor ()
      ensures !isEditing && draft.None? && editingSlug.None?
      ensures featureInput == "" && featureInputAr == "" && !saving
    {
      isEditing := false;
      draft := None;
      editingSlug := None;
      featureInput := "";
      featureInputAr := "";
      saving := false;
    }

    method StartNew()
      modifies this
      ensures isEditing && draft == Some(EmptyService) && editingSlug.None?
      ensures featureInput == old(featureInput) && featureInputAr == old(featureInputAr) && saving == old(saving)
    {
      draft := Some(EmptyService);
      editingSlug := None;
      isEditing := true;
    }

    method StartEdit(d: ServiceDraft, slug: string)
      modifies this
      ensures isEditing && draft == Some(d) && editingSlug == Some(slug)
      ensures featureInput == old(featureInput) && featureInputAr == old(featureInputAr) && saving == old(saving)
    {
      draft := Some(d);
      editingSlug := Some(slug);
      isEditing := true;
    }

    /** The cancel buttons. */
    method Cancel()
      modifies this
      ensures !isEditing && draft.None? && editingSlug.None?
      ensures featureInput == old(featureInput) && featureInputAr == old(featureInputAr) && saving == old(saving)
    {
      isEditing := false;
      draft := None;
      editingSlug := None;
    }

    /** `addFeature`: touches the English list and input only. */
    method AddFeature()
      modifies this
      ensures old(draft).Some? && Trim(old(featureInput)) != "" ==>
        draft == Some(old(draft).value.(features := old(draft).value.features + [Trim(old(featureInput))])) &&
        featureInput == ""
      ensures old(draft).None? || Trim(old(featureInput)) == "" ==>
        draft == old(draft) && featureInput == old(featureInput)
      ensures featureInputAr == old(featureInputAr)
      ensures isEditing == old(isEditing) && editingSlug == old(editingSlug) && saving == old(saving)
    {
      var entry := Trim(featureInput);
      if entry != "" && draft.Some? {
        draft := Some(draft.value.(features := draft.value.features + [entry]));
        featureInput := "";
      }
    }

    /** `addFeatureAr`: touches the Arabic list and input only. */
    method AddFeatureAr()
      modifies this
      ensures old(draft).Some? && Trim(old(featureInputAr)) != "" ==>
        draft == Some(old(draft).value.(featuresAr := old(draft).value.featuresAr + [Trim(old(featureInputAr))])) &&
        featureInputAr == ""
      ensures old(draft).None? || Trim(old(featureInputAr)) == "" ==>
        draft == old(draft) && featureInputAr == old(featureInputAr)
      ensures featureInput == old(featureInput)
      ensures isEditing == old(isEditing) && editingSlug == old(editingSlug) && saving == old(saving)
    {
      var entry := Trim(featureInputAr);
      if entry != "" && draft.Some? {
        draft := Some(draft.value.(featuresAr := draft.value.featuresAr + [entry]));
        featureInputAr := "";
      }
    }

    /** The remove button of English feature `i`; it is only shown while a
        draft is open. */
    method RemoveFeature(i: int)
      requires draft.Some?
      modifies this
      ensures draft == Some(old(draft).value.(features := RemoveAt(old(draft).value.features, i)))
      ensures featureInput == old(featureInput) && featureInputAr == old(featureInputAr)
      ensures isEditing == old(isEditing) && editingSlug == old(editingSlug) && saving == old(saving)
    {
      draft := Some(draft.value.(features := RemoveAt(draft.value.features, i)));
    }

    /** The remove button of Arabic feature `i`. */
    method RemoveFeatureAr(i: int)
      requires draft.Some?
      modifies this
      ensures draft == Some(old(draft).value.(featuresAr := RemoveAt(old(draft).value.featuresAr, i)))
      ensures featureInput == old(featureInput) && featureInputAr == old(featureInputAr)
      ensures isEditing == old(isEditing) && editingSlug == old(editingSlug) && saving == old(saving)
    {
      draft := Some(draft.value.(featuresAr := RemoveAt(draft.value.featuresAr, i)));
    }

    /** Typing in the title field; the slug follows while creating. */
    method SetTitle(title: string)
      requires draft.Some?
      modifies this
      ensures draft == Some(old(draft).value.(title := title, slug := SlugAfterTitle(editingSlug, old(draft).value.slug, title)))
      ensures isEditing == old(isEditing) && editingSlug == old(editingSlug)
      ensures featureInput == old(featureInput) && featureInputAr == old(featureInputAr) && saving == old(saving)
    {
      draft := Some(draft.value.(title := title, slug := SlugAfterTitle(editingSlug, draft.value.slug, title)));
    }

    /** The save button is enabled; unlike the project editor, no list
        entry is required. */
    predicate CanSave()
      reads this
    {
      !saving && draft.Some? && draft.value.title != "" && draft.value.slug != "" &&
      draft.value.shortDescription != ""
    }

    method Save(outcome: SaveOutcome) returns (sent: Option<Request>)
      modifies this
      ensures old(draft).None? ==> sent.None? && draft.None? && saving == old(saving)
      ensures old(draft).Some? ==> sent == Some(SaveRequestFor("/api/services", old(editingSlug))) && !saving
      ensures old(draft).Some? && outcome == Succeeded ==> !isEditing && draft.None? && editingSlug.None?
      ensures old(draft).Some? && outcome != Succeeded ==>
        isEditing == old(isEditing) && draft == old(draft) && editingSlug == old(editingSlug)
      ensures featureInput == old(featureInput) && featureInputAr == old(featureInputAr)
    {
      if draft.None? {
        return None;
      }
      saving := true;
      sent := Some(SaveRequestFor("/api/services", editingSlug));
      if outcome == Succeeded {
        isEditing := false;
        draft := None;
        editingSlug := None;
      }
      saving := false;
    }
  }

  /** A new service with a title, a slug and a short description can be
      saved with both feature lists empty. */
  lemma ServiceSaveNeedsNoFeatures(e: ServiceEditor)
    requires !e.saving && e.draft.Some? && e.draft.value.title != "" && e.draft.value.slug != ""
    requires e.draft.value.shortDescription != "" && e.draft.value.features == [] && e.draft.value.featuresAr == []
    ensures e.CanSave()
  {
  }
}
