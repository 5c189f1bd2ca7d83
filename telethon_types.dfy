/**
 * The parts of Telethon's message objects that the application reads. Attributes that
 * may be missing or falsy in Python are `Option`s.
 */
module Telethon {
  import opened Options

  /** `message.file`: Telethon's wrapper over the media's file. */
  datatype FileInfo = FileInfo(size: int, name: Option<string>)

  /** One entry of `document.attributes`; `duration` is None for attribute kinds without
      that field (`hasattr(attr, 'duration')` is false). */
  datatype DocumentAttribute = DocumentAttribute(duration: Option<int>)

  /** `message.document` or `message.video`. */
  datatype Document = Document(size: int, mimeType: Option<string>, attributes: seq<DocumentAttribute>)

  /** `message.date`, in the fields `strftime` reads. */
  datatype DateTime = DateTime(year: nat, month: nat, day: nat, hour: nat, minute: nat)

  datatype Message = Message(
    id: int, chatId: int,
    text: Option<string>,
    date: DateTime,
    file: Option<FileInfo>,
    document: Option<Document>,
    video: Option<Document>)
}
