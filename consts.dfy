/** The names and values every probe shares (pkg/smoketests/const.go). */
module Consts {
  const NamespaceName: string := "kube-smoketest"
  const ServiceName: string := "smoketest-service"
  const ServiceNameNodePort: string := "smoketest-service-np"
  const SecretName: string := "smoketest-secret"
  const SecretValue: string := "admin"
  const SecretValueBase64: string := "YWRtaW4K"
  const EtcdPort: nat := 2379
}
