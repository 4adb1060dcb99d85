/** The identifier spaces a conversation is looked up by, and the option type used throughout. */
module Identifiers {

  datatype Option<+T> = None | Some(value: T)

  /** Each constructor is one identifier space; the spaces are disjoint. */
  datatype Identifier =
    | Aci(text: string)
    | Pni(text: string)
    | E164(text: string)
    | GroupId(text: string)
    | ConversationId(text: string)

  predicate IsServiceId(id: Identifier) {
    id.Aci? || id.Pni?
  }

  /** A phone number in international form: a single leading '+'. */
  predicate IsE164(id: Identifier) {
    id.E164? && |id.text| >= 2 && id.text[0] == '+' && id.text[1] != '+'
  }

  /** The second key the lookup by phone number is probed with. */
  function WithPlus(id: Identifier): Identifier {
    match id
    case Aci(text) => Aci("+" + text)
    case Pni(text) => Pni("+" + text)
    case E164(text) => E164("+" + text)
    case GroupId(text) => GroupId("+" + text)
    case ConversationId(text) => ConversationId("+" + text)
  }
}
