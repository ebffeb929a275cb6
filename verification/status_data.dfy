/** The status-data store of src/store/statusData.ts: the record the panel
    displays, its initial value and `clearData`. */
module StatusData {
  import JsValue

  /** A number field's dual value: the magnitude for the progress bar and the
      original text (with any `%`) for display. */
  datatype NumberFieldValue = NumberFieldValue(value: real, display: string)

  /** A dynamic field's entry: text, a dual number, or the decoded value passed
      through when numeric coercion failed. */
  datatype CustomValue =
    | Text(text: string)
    | Dual(dual: NumberFieldValue)
    | Raw(raw: JsValue.Value)

  datatype News = News(kind: string, title: string, content: string)

  datatype Data = Data(
    date: string,
    location: string,
    weather: string,
    news: News,
    notes: string,
    customFields: map<string, CustomValue>)

  /** True when every string attribute is empty and there are no dynamic fields. */
  predicate IsBlank(d: Data) {
    && d.date == "" && d.location == "" && d.weather == ""
    && d.news.kind == "" && d.news.title == "" && d.news.content == ""
    && d.notes == ""
    && d.customFields == map[]
  }

  /** The value the store starts with. */
  function Initial(): (d: Data)
    ensures IsBlank(d)
  {
    Data("", "", "", News("", "", ""), "", map[])
  }

  /** `clearData`: the whole record is replaced, whatever it held before. */
  function ClearData(d: Data): (r: Data)
    ensures IsBlank(r)
  {
    Data("", "", "", News("", "", ""), "", map[])
  }

  /** There is exactly one blank record, so clearing always lands on the
      initial state and clearing twice is the same as clearing once. */
  lemma ClearDataIsInitial(d: Data)
    ensures ClearData(d) == Initial()
    ensures ClearData(ClearData(d)) == ClearData(d)
    ensures forall e :: IsBlank(e) ==> e == Initial()
  {
  }
}
