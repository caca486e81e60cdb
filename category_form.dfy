/** The manager's category form (client/src/components/CategoryForm.tsx). */
module CategoryForm {
  import opened Common
  import opened Types

  const NameRequired := "Category name is required"
  const SaveFailed := "Failed to save category"

  /** The one client-side check of `handleSubmit`. */
  function ValidateForm(name: string): (r: Option<string>)
    ensures r == None <==> Trim(name) != ""
    ensures r.Some? ==> r.value == NameRequired
  {
    if Trim(name) == "" then Some(NameRequired) else None
  }

  /** The create and update body alike. */
  datatype CategoryPayload = CategoryPayload(name: string, description: Option<string>, icon: Option<string>)

  /** `x.trim() || undefined`: a trimmed text, or nothing when it is blank. */
  function TrimmedOrAbsent(s: string): (r: Option<string>)
    ensures r.None? <==> Trim(s) == ""
    ensures r.Some? ==> r.value == Trim(s)
  {
    if Trim(s) == "" then None else Some(Trim(s))
  }

  function BuildPayload(name: string, description: string, icon: string): (p: CategoryPayload)
    ensures p.name == Trim(name)
    ensures p.description == TrimmedOrAbsent(description) && p.icon == TrimmedOrAbsent(icon)
  {
    CategoryPayload(Trim(name), TrimmedOrAbsent(description), TrimmedOrAbsent(icon))
  }

  /** Surrounding whitespace never changes what is sent. */
  lemma PayloadIgnoresPadding(ws: string, name: string, ws': string, description: string, icon: string)
    requires AllSpace(ws) && AllSpace(ws')
    ensures BuildPayload(ws + name + ws', description, icon) == BuildPayload(name, description, icon)
  {
    TrimIgnoresPadding(ws, name, ws');
  }

  class CategoryFormState {
    /** The `category` prop: the category being edited, or none when creating. */
    const category: Option<Category>
    var name: string
    var description: string
    var icon: string
    var error: Option<string>
    var success: bool

    constructor (category: Option<Category>)
      ensures this.category == category
      ensures category.Some? ==> name == category.value.name && description == category.value.description && icon == category.value.icon
      ensures category.None? ==> name == "" && description == "" && icon == ""
      ensures error == None && !success
    {
      this.category := category;
      match category {
        case Some(c) => name, description, icon := c.name, c.description, c.icon;
        case None => name, description, icon := "", "", "";
      }
      error, success := None, false;
    }

    /** `handleSubmit`; only a successful create clears the fields. */
    method HandleSubmit(outcome: SubmitOutcome) returns (sent: Option<CategoryPayload>)
      modifies this
      ensures ValidateForm(old(name)).Some? ==> sent == None && error == ValidateForm(old(name))
      ensures ValidateForm(old(name)).None? ==> sent == Some(BuildPayload(old(name), old(description), old(icon)))
      ensures sent.Some? && outcome.Rejected? ==> error == Some(RejectionText(outcome.responseError, outcome.message, SaveFailed))
      ensures sent.Some? && outcome.Saved? ==> error == None
      ensures success <==> sent.Some? && outcome.Saved?
      ensures sent.Some? && outcome.Saved? && category.None? ==> name == "" && description == "" && icon == ""
      ensures !(sent.Some? && outcome.Saved? && category.None?) ==>
        name == old(name) && description == old(description) && icon == old(icon)
    {
      error, success := None, false;
      var failure := ValidateForm(name);
      if failure.Some? {
        error := failure;
        return None;
      }
      sent := Some(BuildPayload(name, description, icon));
      match outcome {
        case Saved =>
          success := true;
          if category.None? {
            name, description, icon := "", "", "";
          }
        case Rejected(responseError, message) =>
          error := Some(RejectionText(responseError, message, SaveFailed));
      }
    }
  }
}
