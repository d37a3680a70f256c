/** The form-data set shared by the form encoders. A byte is written as a character below U+0100. */
module FormData {

  type Bytes = string

  datatype Value = Text(text: Bytes) | File(filename: Bytes, contentType: Bytes, body: Bytes)

  datatype FormEntry = FormEntry(name: Bytes, value: Value)

  /** `textual_value`: a file entry is represented by its filename. */
  function TextualValue(e: FormEntry): Bytes {
    match e.value
    case Text(text) => text
    case File(filename, _, _) => filename
  }

  /** Every character stands for a byte. */
  predicate Octets(s: Bytes) { forall i :: 0 <= i < |s| ==> s[i] as int < 256 }
}
