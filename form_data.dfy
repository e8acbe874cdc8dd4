/** The five-field record the form collects and the PDF generator lays out. */
module FormData {

  /** The keys of the record. */
  datatype FieldName = Name | Email | Phone | Position | Description

  datatype FieldRecord = FieldRecord(
    name: string,
    email: string,
    phone: string,
    position: string,
    description: string)
  {
    /** `record[field]`. */
    function Get(f: FieldName): string {
      match f
      case Name => name
      case Email => email
      case Phone => phone
      case Position => position
      case Description => description
    }

    /** `{ ...record, [field]: value }`: `f` now holds `v`, every other field
        is as it was. */
    function With(f: FieldName, v: string): (r: FieldRecord)
      ensures r.Get(f) == v
      ensures forall g :: g != f ==> r.Get(g) == Get(g)
    {
      match f
      case Name => this.(name := v)
      case Email => this.(email := v)
      case Phone => this.(phone := v)
      case Position => this.(position := v)
      case Description => this.(description := v)
    }
  }

  /** The record the form starts with: every field empty. */
  const EmptyRecord := FieldRecord("", "", "", "", "")
}
