/** The shape of one extracted listing as both scripts handle it: a JSON
    object read as a dictionary from field names to values. */
module Records {

  /** A record; every value is kept as text. */
  type Record = map<string, string>

  /** The board (ranking list) a record belongs to. */
  const BoardField: string := "榜单"
  /** The brand of the listed shop. */
  const BrandField: string := "品牌"
  /** The city the run was captured in, added by the loader. */
  const CityField: string := "城市"

  /** Python's `field in record and record[field]`: present and non-empty. */
  predicate Truthy(r: Record, field: string) {
    field in r && r[field] != []
  }

  lemma FieldsDistinct()
    ensures BoardField != BrandField && BrandField != CityField && BoardField != CityField
  {
    assert BoardField[0] != BrandField[0] && BrandField[0] != CityField[0] && BoardField[0] != CityField[0];
  }
}
