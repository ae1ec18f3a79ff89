/** The entities the pipeline moves through its stages. */
module Streams {
  import opened JsonValue

  /** One playlist entry `{'title': ..., 'address': ...}`. */
  datatype Entry = Entry(title: string, address: string)

  /** What one secondary request came back with: an exception (`Failed`), or a
      response body together with its JSON parse (`None` when the body is not JSON). */
  datatype Fetch = Failed | Body(text: string, parsed: Option<Json>)

  /** Whose rules apply: tools-gui.py (`GuiRules`) or the older tools.py (`ScriptRules`). */
  datatype Variant = GuiRules | ScriptRules
}
