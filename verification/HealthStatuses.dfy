/** Health of a sensor or an actuator. */
module HealthStatuses {
  datatype HealthStatus = HEALTHY | DEGRADED | FAILED

  function Severity(h: HealthStatus): nat {
    match h
    case HEALTHY => 0
    case DEGRADED => 1
    case FAILED => 2
  }
}
