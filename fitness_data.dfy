/**
 * The parts of a vendor `DataReadResponse` that the plugin reads: buckets of data sets
 * of data points, each point carrying its data type's name, its time interval and one
 * value per field of its data type (in the data type's field order).
 */
module FitnessData {
  /** An opaque field value as the vendor returns it (`asInt()` / `asFloat()`); never inspected numerically. */
  datatype Value = Value(bits: int)

  datatype FieldValue = FieldValue(field: string, value: Value)

  datatype DataPoint = DataPoint(typeName: string, startMs: int, endMs: int, fields: seq<FieldValue>)

  datatype DataSet = DataSet(points: seq<DataPoint>)

  /** A time or activity-segment bucket; `activity` is what `Bucket.getActivity()` returns. */
  datatype Bucket = Bucket(startMs: int, endMs: int, activity: string, dataSets: seq<DataSet>)

  /** A successful response: the buckets of an aggregated read, and the data set of a raw weight read. */
  datatype Response = Response(buckets: seq<Bucket>, weight: DataSet)

  /** The data type name the activities reader picks calories from. */
  const CaloriesExpended: string := "com.google.calories.expended"

  /** Number of fields over a run of data points. */
  function PointsFieldCount(points: seq<DataPoint>): nat
  {
    if points == [] then 0 else |points[0].fields| + PointsFieldCount(points[1..])
  }

  /** Number of fields over a run of data sets. */
  function SetsFieldCount(sets: seq<DataSet>): nat
  {
    if sets == [] then 0 else PointsFieldCount(sets[0].points) + SetsFieldCount(sets[1..])
  }

  /** Number of fields over all data points of all buckets. */
  function BucketsFieldCount(buckets: seq<Bucket>): nat
  {
    if buckets == [] then 0 else SetsFieldCount(buckets[0].dataSets) + BucketsFieldCount(buckets[1..])
  }
}
