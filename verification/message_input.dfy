/** The message input box: submitting sends the trimmed text and clears the box, unless the text
    is blank or a send is already in flight. */
module MessageInput {
  import opened Wrappers
  import Text

  /** `handleSubmit`: returns the box's text afterwards and the text sent, if any. */
  function HandleSubmit(input: string, loading: bool): (r: (string, Option<string>))
    ensures r.1.Some? <==> !Text.IsBlank(input) && !loading
    ensures r.1.Some? ==> r.1.value == Text.Trim(input) && r.0 == ""
    ensures r.1.Some? ==> r.1.value != "" && Text.IsTrimmed(r.1.value)
    ensures r.1.None? ==> r.0 == input
  {
    var text := Text.Trim(input);
    if text == "" || loading then (input, None)
    else ("", Some(text))
  }
}
