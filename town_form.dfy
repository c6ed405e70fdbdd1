/** The town form's submit rule. */
module TownForm {
  import opened Common
  import opened Text

  /** `handleSubmit`: the trimmed name handed to `onSave`, or no call at all
      (and no message) for a missing or blank name. A submit makes at most one call. */
  function SubmitTown(townName: Option<string>): (call: Option<string>)
    ensures call.Some? <==> townName.Some? && !AllSpace(townName.value)
    ensures call.Some? ==> call.value == Trim(townName.value)
    ensures call.Some? ==> call.value != "" && !IsSpace(call.value[0]) && !IsSpace(call.value[|call.value| - 1])
  {
    if townName.Some? && Trim(townName.value) != "" then Some(Trim(townName.value)) else None
  }

  /** Submitting the name that was saved saves it unchanged. */
  lemma SubmitSavedName(townName: Option<string>)
    requires SubmitTown(townName).Some?
    ensures SubmitTown(SubmitTown(townName)) == SubmitTown(townName)
  {
    TrimIdempotent(townName.value);
  }
}
