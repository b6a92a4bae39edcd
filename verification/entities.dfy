/**
  The two records the app stores: a pasted text and the sentences cut from
  it, each sentence with the path of its synthesised audio. Identifiers
  are assigned by the database; `0` stands for "not yet stored".
*/
module Entities {
  import opened KotlinText

  /** A saved text (`text_entries`). */
  datatype TextEntry = TextEntry(
    id: int,
    title: string,
    content: string,
    audioFilePath: Option<string>,
    wordCount: int,
    estimatedDuration: Option<string>,
    createdAt: int)

  /** One sentence of a text (`sentences`), in reading order `orderIndex`. */
  datatype Sentence = Sentence(
    id: int,
    textEntryId: int,
    content: string,
    orderIndex: int,
    audioFilePath: Option<string>,
    duration: int,
    createdAt: int)
}
