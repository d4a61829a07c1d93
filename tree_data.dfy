/** The record buffer that fillers write into: named scalar fields, each
    holding one value per record, and named "multi" fields, each holding an
    ordered sequence of values per record. Fields are addressed by a key
    type `K` (a branch handle standing for the field's name); every multi
    field holds floating-point values. */
module TreeBuffer {
  import opened NumericGuard

  /** A scalar field's value; the constructor is the field's declared type. */
  datatype Scalar = IntValue(i: int) | FloatValue(x: Float)

  predicate SameKind(a: Scalar, b: Scalar) {
    a.IntValue? == b.IntValue?
  }

  /** A declared scalar field: its value in the current record and the
      default it was declared with, which also fixes its type. */
  datatype ScalarField = ScalarField(value: Scalar, default: Scalar)

  class TreeData<K(==)> {
    var multi: map<K, seq<Float>>
    var scalars: map<K, ScalarField>

    /** Every scalar holds a value of its declared type. */
    ghost predicate Valid()
      reads this
    {
      forall k :: k in scalars ==> SameKind(scalars[k].value, scalars[k].default)
    }

    constructor ()
      ensures Valid()
      ensures multi == map[] && scalars == map[]
    {
      multi, scalars := map[], map[];
    }

    /** `add<T>(name, default)`: declares a scalar field holding its default.
        Declaring a name twice is a configuration error. */
    method Add(name: K, default: Scalar)
      requires Valid()
      requires name !in multi && name !in scalars
      modifies this`scalars
      ensures Valid()
      ensures scalars == old(scalars)[name := ScalarField(default, default)]
    {
      scalars := scalars[name := ScalarField(default, default)];
    }

    /** `addMulti<T>(name)`: declares a multi field, initially empty. */
    method AddMulti(name: K)
      requires name !in multi && name !in scalars
      modifies this`multi
      ensures multi == old(multi)[name := []]
    {
      multi := multi[name := []];
    }

    /** Opens a new record: every scalar back to its default, every multi
        field emptied. The declared names do not change. */
    method Reset()
      modifies this
      ensures Valid()
      ensures multi.Keys == old(multi.Keys) && scalars.Keys == old(scalars.Keys)
      ensures forall k :: k in multi ==> multi[k] == []
      ensures forall k :: k in scalars ==> scalars[k] == ScalarField(old(scalars)[k].default, old(scalars)[k].default)
    {
      multi := map k | k in multi :: [];
      scalars := map k | k in scalars :: ScalarField(scalars[k].default, scalars[k].default);
    }

    /** `fillMulti<T>(name, value)`: appends one value to a declared multi
        field and changes nothing else. */
    method FillMulti(name: K, value: Float)
      requires name in multi
      modifies this`multi
      ensures multi == old(multi)[name := old(multi)[name] + [value]]
    {
      multi := multi[name := multi[name] + [value]];
    }

    /** `fill<T>(name, value)`: overwrites a declared scalar field with a
        value of its declared type and changes nothing else. */
    method Fill(name: K, value: Scalar)
      requires Valid()
      requires name in scalars && SameKind(scalars[name].default, value)
      modifies this`scalars
      ensures Valid()
      ensures scalars == old(scalars)[name := ScalarField(value, old(scalars)[name].default)]
    {
      scalars := scalars[name := ScalarField(value, scalars[name].default)];
    }
  }
}
