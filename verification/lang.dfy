/** The `handleLocalizedMessages` middleware of
    `src/middlewares/lang.middleware.ts`: it picks the message table named
    by the `lang` header, falling back to English, stores it on the request
    and hands the request on. */
module Lang {
  import opened Common

  /** A value `ERROR_MESSAGES[lang]` can yield. The object literal holds
      the `pt` and `en` tables; a key it does not own but inherits from
      `Object.prototype` yields that inherited member, which is truthy. */
  datatype Table = English | Portuguese | Inherited(key: string)

  /** The names `Object.prototype` supplies to every object literal. */
  const PrototypeKeys: set<string> := {
    "constructor", "__proto__", "hasOwnProperty", "isPrototypeOf",
    "propertyIsEnumerable", "toLocaleString", "toString", "valueOf",
    "__defineGetter__", "__defineSetter__", "__lookupGetter__", "__lookupSetter__"}

  /** The table a language key owns. */
  function OwnTable(lang: string): Option<Table>
  {
    if lang == "pt" then Some(Portuguese)
    else if lang == "en" then Some(English)
    else None
  }

  /** `ERROR_MESSAGES[lang]` with property lookup as JavaScript does it. */
  function TableLookup(lang: string): Option<Table>
  {
    if OwnTable(lang).Some? then OwnTable(lang)
    else if lang in PrototypeKeys then Some(Inherited(lang))
    else None
  }

  /** The selection as written: a truthy header whose lookup is truthy. */
  function SelectTableAsWritten(lang: Option<string>): (t: Table)
    ensures Truthy(lang) && OwnTable(lang.value).Some? ==> t == OwnTable(lang.value).value
    ensures !Truthy(lang) ==> t == English
    ensures Truthy(lang) && lang.value !in PrototypeKeys && OwnTable(lang.value).None? ==> t == English
  {
    if Truthy(lang) && TableLookup(lang.value).Some? then TableLookup(lang.value).value
    else English
  }

  /** The selection with the lookup limited to the tables the object owns. */
  function SelectTable(lang: Option<string>): (t: Table)
    ensures t == English || t == Portuguese
    ensures t == Portuguese <==> lang == Some("pt")
  {
    if Truthy(lang) && OwnTable(lang.value).Some? then OwnTable(lang.value).value
    else English
  }

  /** An inherited name selects no table as written; the two selections
      agree on every other header. */
  lemma PrototypeKeySelectsNoTable(key: string)
    requires key in PrototypeKeys
    ensures SelectTableAsWritten(Some(key)) == Inherited(key)
    ensures SelectTable(Some(key)) == English
  {
  }

  lemma SelectionsAgreeOffPrototype(lang: Option<string>)
    requires lang.Some? ==> lang.value !in PrototypeKeys
    ensures SelectTableAsWritten(lang) == SelectTable(lang)
  {
  }

  /** The request as the middleware sees it: the `lang` header, the
      `messages` field it sets and the number of times `next` was called. */
  class Request {
    const lang: Option<string>
    var messages: Option<Table>
    var nextCalls: nat

    constructor(lang: Option<string>)
      ensures this.lang == lang && messages == None && nextCalls == 0
    {
      this.lang := lang;
      messages := None;
      nextCalls := 0;
    }

    /** `handleLocalizedMessages` as written. */
    method HandleLocalizedMessagesAsWritten()
      modifies this
      ensures messages == Some(SelectTableAsWritten(lang))
      ensures nextCalls == old(nextCalls) + 1
    {
      if Truthy(lang) && TableLookup(lang.value).Some? {
        messages := TableLookup(lang.value);
      } else {
        messages := Some(English);
      }
      nextCalls := nextCalls + 1;
    }

    /** `handleLocalizedMessages` with the lookup limited to own tables:
        `messages` always ends up a real table, and `next` is called once. */
    method HandleLocalizedMessages()
      modifies this
      ensures messages == Some(SelectTable(lang))
      ensures messages.value == English || messages.value == Portuguese
      ensures nextCalls == old(nextCalls) + 1
    {
      if Truthy(lang) && OwnTable(lang.value).Some? {
        messages := OwnTable(lang.value);
      } else {
        messages := Some(English);
      }
      nextCalls := nextCalls + 1;
    }
  }
}
