/**
 * The OOXML boolean encoding of the DrawingML templates: `true` is written `1` and `false` is written `0`,
 * never the words, as the `ST_OnOff`-style attributes of section 20.4 of ECMA-376 Part 1 are read by Word.
 */
module BooleanSerialization {
  import opened Wrappers

  /** `serialize_bool_ooxml`. */
  function SerializeBoolOoxml(value: bool): (s: string)
    ensures s == "1" || s == "0"
    ensures s != "true" && s != "false"
  {
    if value then "1" else "0"
  }

  /** `serialize_bool_ooxml_explicit`: the same encoding written as a `match`. */
  function SerializeBoolOoxmlExplicit(value: bool): (s: string)
    ensures s == SerializeBoolOoxml(value)
  {
    match value
    case true => "1"
    case false => "0"
  }

  /** Reads an `xsd:boolean` attribute value, which admits both the digit and the word spellings. */
  function ParseBoolOoxml(s: string): Option<bool>
  {
    if s == "1" || s == "true" then Some(true)
    else if s == "0" || s == "false" then Some(false)
    else None
  }

  /** The encoding reads back as the value it encodes, so it is injective. */
  lemma BoolRoundTrip(value: bool)
    ensures ParseBoolOoxml(SerializeBoolOoxml(value)) == Some(value)
    ensures |SerializeBoolOoxml(value)| == 1
    ensures SerializeBoolOoxml(value) != SerializeBoolOoxml(!value)
  {
  }

  /** The text `name="v"`. */
  function AttrText(name: string, value: string): string
  {
    name + "=\"" + value + "\""
  }

  /** `serialize_bool_attr!(name, value)`: a quoted one-character value after `name=`, reading back as `value`. */
  function SerializeBoolAttr(name: string, value: bool): (s: string)
    ensures |s| == |name| + 4 && s[..|name|] == name && s[|name|..|name| + 2] == "=\""
    ensures ParseBoolOoxml(s[|name| + 2..|name| + 3]) == Some(value) && s[|name| + 3] == '"'
  {
    AttrText(name, SerializeBoolOoxml(value))
  }
}
