/** The remote_write data model, shared by the projections and the encoder. `S` is the
    representation of strings, `V` that of sample values and `L` that of label sets. */
module Model {
  datatype Label<S> = Label(name: S, value: S)

  datatype Sample<V> = Sample(value: V, timestampMs: int)

  datatype TimeSeries<L, V> = TimeSeries(labels: L, samples: seq<Sample<V>>)
}
