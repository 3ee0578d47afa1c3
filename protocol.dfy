/**
 * The packet types both ends exchange. The numeric codes live in headers
 * outside this model, so a packet type is a plain enumeration here; the one
 * place the firmware compares codes (a range test over the night-mode
 * settings) is stated as membership of the three night-mode types, which
 * assumes those three codes are consecutive.
 */
module Protocol {
  datatype PacketType =
    | Power
    | SensorType | ControlType
    | PidTarget | PidP | PidI | PidD | PidInterval | PidReverse
    | NightModeEnabled | NightModeStart | NightModeEnd
    | SysConfigMdnsName | SysConfigWifiMode | SysConfigWifiSsid | SysConfigWifiPassword
    | SysConfigWifiConnectionCheckInterval | SysConfigWifiMaxConnectionAttemptInterval
    | SysConfigTimeZone | SysConfigMqttEnabled | SysConfigMqttHost | SysConfigMqttPort
    | SysConfigMqttUser | SysConfigMqttPassword
    | PwmControlPin | PwmControlPeriod
    | AnalogSensorPin | AnalogSensorResolution
    | Dsx18SensorPin | Dsx18SensorResolution | Dsx18SensorParasite
    | SensorValue | ControlValue | HistoryData
    | GetConfig | GetState | Restart

  /** `NIGHT_MODE_ENABLED <= type <= NIGHT_MODE_END`. */
  predicate InNightModeRange(t: PacketType) {
    t == NightModeEnabled || t == NightModeStart || t == NightModeEnd
  }
}
