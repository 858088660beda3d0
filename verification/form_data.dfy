/** The entries of a multipart `FormData` body, in the order they are appended. */
module FormData {

  /** A text field, or a file given by its local URI, its upload name and its MIME type. */
  datatype FormValue = Field(text: string) | File(uri: string, name: string, mimeType: string)

  datatype FormEntry = FormEntry(key: string, value: FormValue)
}
