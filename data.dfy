/** The records exchanged between the control plane, its clients and the store
    (data/tap.go). They carry no behaviour. */
module Data {

  /** A tap definition as posted to `POST /taps` and stored under `taps/<id>/options`. */
  datatype TapOptions = TapOptions(name: string, code: string, webhookURL: string, batchLimit: int)

  /** One row of a listing page. */
  datatype TapListEntry = TapListEntry(id: string, name: string, webhookURL: string)

  /** A listing page; an empty cursor stands for the omitted JSON field, i.e. "no more pages". */
  datatype TapListPage = TapListPage(entries: seq<TapListEntry>, cursor: string)
}
