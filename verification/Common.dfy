/** Constants and value types shared by the gateway's files. */
module Common {
  const MAX_SENSORS := 50
  const TIMEOUT_SECONDS := 15
  const MAX_RETRIES := 3

  datatype Option<+T> = None | Some(value: T)

  /** One reading as a sensor node sends it; `temperature` is a real, not a float. */
  datatype Reading = Reading(sensorId: int, temperature: real, timestamp: int)
}
